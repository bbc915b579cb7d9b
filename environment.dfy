/** What the generator's file-editing code gets from the platform, as values: the
    file system, the `System.IO.Path` helpers and `Guid.NewGuid`. */
module Environment {
  import opened Outcomes

  /** The file system: a path maps to the text of the file stored there. */
  type FileSystem = map<string, string>

  /** `File.ReadAllTextAsync`: a missing file throws. */
  function ReadAllText(fs: FileSystem, path: string): (r: Outcome<string>)
    ensures r.Returned? <==> path in fs
    ensures r.Returned? ==> r.value == fs[path]
    ensures r.Threw? ==> r.exception == FileNotFound(path)
  {
    if path in fs then Returned(fs[path]) else Threw(FileNotFound(path))
  }

  /** The `System.IO.Path` functions the code calls, taken as given: how they split
      and join paths is not part of this model. */
  datatype PathModel = PathModel(
    combine: (string, string) -> string,   // Path.Combine(a, b)
    relative: (string, string) -> string,  // Path.GetRelativePath(from, to)
    fileName: string -> string,            // Path.GetFileName(p)
    directoryName: string -> string)       // Path.GetDirectoryName(p)!

  /** `Guid.NewGuid`: an endless supply of tokens, read from position `next` on. */
  datatype GuidSupply = GuidSupply(token: nat -> string, next: nat)

  /** Every token is plain text. */
  ghost predicate PlainSupply(s: GuidSupply) {
    forall i :: PlainToken(s.token(i))
  }

  /** A GUID's text: hex digits and dashes only, so no tab, brace, quote, angle
      bracket, line break or capital G. */
  predicate PlainToken(g: string) {
    forall k :: 0 <= k < |g| ==>
      g[k] != '\t' && g[k] != '{' && g[k] != '}' && g[k] != '"' && g[k] != '<' && g[k] != '\r' && g[k] != '\n' && g[k] != 'G'
  }

  /** Draw the next token. */
  function NewGuid(s: GuidSupply): (r: (string, GuidSupply))
    ensures r.0 == s.token(s.next) && r.1 == s.(next := s.next + 1)
  {
    (s.token(s.next), s.(next := s.next + 1))
  }
}

/** `SolutionGenerator.AddProjectsToSolutionAsync` and
    `SolutionGenerator.AddTestProjectToSolutionAsync`: list the generated projects in
    the `.sln` file, inside the `src` and `tests` solution folders, with their build
    configurations and their place in the folder tree. */
module SolutionFile {
  import opened Outcomes
  import opened Models
  import opened Text
  import opened Environment
  import opened SolutionGenerator

  // ---------------------------------------------------------------------------
  // The lines of a solution file
  // ---------------------------------------------------------------------------

  /** The project-type GUID of a solution folder. */
  const SolutionFolderType := "{2150E333-8FDC-42A3-9474-1A3956D46DE8}"
  /** The project-type GUID of a C# project. */
  const CSharpProjectType := "{FAE04EC0-301F-11D3-BF4B-00C04F79EFBC}"
  const Crlf := "\r\n"
  const EndProject := "EndProject"
  const GlobalKeyword := "Global"
  const NestedProjectsKeyword := "GlobalSection(NestedProjects)"
  const MissingGlobal := "Solution file is missing 'Global' section"
  const MissingEndGlobalSection := "Solution file is missing 'EndGlobalSection'"

  /** `Project("{type}") = "name", "path", "{guid}"`. */
  function ProjectLine(typeId: string, name: string, path: string, guid: string): string {
    "Project(\"" + typeId + "\") = \"" + name + "\", \"" + path + "\", \"{" + guid + "}\""
  }

  /** A solution folder's line: the folder's name is also its path. */
  function FolderLine(name: string, guid: string): string {
    ProjectLine(SolutionFolderType, name, name, guid)
  }

  /** A project line followed by its `EndProject` line. */
  function Entry(line: string): string {
    line + Crlf + EndProject
  }

  /** A line of the `Global` block that starts with a project's GUID, indented twice. */
  function GuidLine(guid: string, rest: string): string {
    "\t\t{" + guid + "}" + rest
  }

  /** The four build-configuration lines of one project: Debug and Release, each
      with an `ActiveCfg` and a `Build.0` line. */
  function ConfigLines(guid: string): (r: seq<string>)
    ensures |r| == 4
  {
    [ GuidLine(guid, ".Debug|Any CPU.ActiveCfg = Debug|Any CPU"),
      GuidLine(guid, ".Debug|Any CPU.Build.0 = Debug|Any CPU"),
      GuidLine(guid, ".Release|Any CPU.ActiveCfg = Release|Any CPU"),
      GuidLine(guid, ".Release|Any CPU.Build.0 = Release|Any CPU") ]
  }

  /** The line that places a project inside a solution folder. */
  function NestingLine(guid: string, folder: string): string {
    GuidLine(guid, " = {" + folder + "}")
  }

  /** A new `NestedProjects` section holding the given lines. */
  function NestedProjectsSection(lines: seq<string>): string {
    Crlf + "\tGlobalSection(NestedProjects) = preSolution" + Crlf + Join(Crlf, lines) + Crlf + EndGlobalSection
  }

  /** The check for a project the file already lists: its name after `= ` or its
      path, each in quotes. */
  predicate AlreadyListed(content: string, name: string, path: string) {
    Contains(content, "= \"" + name + "\"") || Contains(content, "\"" + path + "\"")
  }

  // ---------------------------------------------------------------------------
  // Adding the generated projects
  // ---------------------------------------------------------------------------

  /** A project as the solution file names it. */
  datatype Candidate = Candidate(name: string, path: string)

  /** The project in `projectPath`: its directory name, and its project file
      relative to the solution's directory, with forward slashes. */
  function CandidateOf(paths: PathModel, solutionFile: string, projectPath: string): Candidate {
    var name := paths.fileName(projectPath);
    var projectFile := paths.combine(projectPath, name + ".csproj");
    Candidate(name, NormalizeSeparators(paths.relative(paths.directoryName(solutionFile), projectFile)))
  }

  /** The projects of `ordered` the file does not list yet, in order. */
  function NewCandidates(content: string, paths: PathModel, solutionFile: string, ordered: ProjectPaths): seq<Candidate>
    decreases |ordered|
  {
    if ordered == [] then []
    else
      var c := CandidateOf(paths, solutionFile, ordered[|ordered| - 1].1);
      NewCandidates(content, paths, solutionFile, ordered[..|ordered| - 1])
        + (if AlreadyListed(content, c.name, c.path) then [] else [c])
  }

  /** One more project: it is added iff the file does not list it. */
  lemma NewCandidatesStep(content: string, paths: PathModel, solutionFile: string, ordered: ProjectPaths, i: nat)
    requires i < |ordered|
    ensures
      var c := CandidateOf(paths, solutionFile, ordered[i].1);
      NewCandidates(content, paths, solutionFile, ordered[..i + 1])
        == NewCandidates(content, paths, solutionFile, ordered[..i]) + (if AlreadyListed(content, c.name, c.path) then [] else [c])
  {
    assert ordered[..i + 1][..i] == ordered[..i];
  }

  /** Every added project is one of the given projects and is not listed yet. */
  lemma {:induction false} NewCandidatesAreUnlisted(content: string, paths: PathModel, solutionFile: string, ordered: ProjectPaths)
    ensures forall c :: c in NewCandidates(content, paths, solutionFile, ordered) ==>
      && !AlreadyListed(content, c.name, c.path)
      && exists i :: 0 <= i < |ordered| && c == CandidateOf(paths, solutionFile, ordered[i].1)
    ensures |NewCandidates(content, paths, solutionFile, ordered)| <= |ordered|
    decreases |ordered|
  {
    if ordered != [] {
      var n := |ordered| - 1;
      var init := ordered[..n];
      NewCandidatesAreUnlisted(content, paths, solutionFile, init);
      forall c | c in NewCandidates(content, paths, solutionFile, init)
        ensures exists i :: 0 <= i < |ordered| && c == CandidateOf(paths, solutionFile, ordered[i].1)
      {
        var i :| 0 <= i < |init| && c == CandidateOf(paths, solutionFile, init[i].1);
        assert ordered[i] == init[i];
      }
    }
  }

  /** Every given project the file does not list is added. */
  lemma {:induction false} UnlistedAreNew(content: string, paths: PathModel, solutionFile: string, ordered: ProjectPaths, i: nat)
    requires i < |ordered|
    requires !AlreadyListed(content, CandidateOf(paths, solutionFile, ordered[i].1).name, CandidateOf(paths, solutionFile, ordered[i].1).path)
    ensures CandidateOf(paths, solutionFile, ordered[i].1) in NewCandidates(content, paths, solutionFile, ordered)
    decreases |ordered|
  {
    var n := |ordered| - 1;
    if i < n {
      assert ordered[..n][i] == ordered[i];
      UnlistedAreNew(content, paths, solutionFile, ordered[..n], i);
    }
  }

  /** The entries of the new projects, the `i`-th with the GUID `token(start + i)`. */
  function ProjectEntries(cands: seq<Candidate>, token: nat -> string, start: nat): seq<string>
    decreases |cands|
  {
    if cands == [] then []
    else
      var n := |cands| - 1;
      ProjectEntries(cands[..n], token, start)
        + [ProjectLine(CSharpProjectType, cands[n].name, cands[n].path, token(start + n)), EndProject]
  }

  /** Each new project has exactly one project line, in order, each followed by its
      `EndProject`. */
  lemma {:induction false} ProjectEntriesShape(cands: seq<Candidate>, token: nat -> string, start: nat)
    ensures |ProjectEntries(cands, token, start)| == 2 * |cands|
    ensures forall i :: 0 <= i < |cands| ==>
      && ProjectEntries(cands, token, start)[2 * i] == ProjectLine(CSharpProjectType, cands[i].name, cands[i].path, token(start + i))
      && ProjectEntries(cands, token, start)[2 * i + 1] == EndProject
    decreases |cands|
  {
    if cands != [] {
      var n := |cands| - 1;
      ProjectEntriesShape(cands[..n], token, start);
      forall i | 0 <= i < n ensures cands[..n][i] == cands[i] { }
    }
  }

  /** The nesting lines of the new projects, each placing one of them in `folder`. */
  function NestingLines(cands: seq<Candidate>, token: nat -> string, start: nat, folder: string): seq<string>
    decreases |cands|
  {
    if cands == [] then []
    else NestingLines(cands[..|cands| - 1], token, start, folder) + [NestingLine(token(start + |cands| - 1), folder)]
  }

  /** One nesting line per new project, each pointing at `folder`. */
  lemma {:induction false} NestingLinesShape(cands: seq<Candidate>, token: nat -> string, start: nat, folder: string)
    ensures |NestingLines(cands, token, start, folder)| == |cands|
    ensures forall i :: 0 <= i < |cands| ==> NestingLines(cands, token, start, folder)[i] == NestingLine(token(start + i), folder)
    decreases |cands|
  {
    if cands != [] {
      NestingLinesShape(cands[..|cands| - 1], token, start, folder);
    }
  }

  /** A dictionary from project name to GUID, in insertion order. */
  type GuidTable = seq<(string, string)>

  /** The position of `key`, or -1. */
  function KeyIndex(table: GuidTable, key: string): (r: int)
    ensures -1 <= r < |table|
    ensures r == -1 <==> forall j :: 0 <= j < |table| ==> table[j].0 != key
    ensures r != -1 ==> table[r].0 == key
    decreases |table|
  {
    if table == [] then -1
    else if table[|table| - 1].0 == key then |table| - 1
    else KeyIndex(table[..|table| - 1], key)
  }

  /** `table[key] = value`: an existing key keeps its place and takes the new value,
      a new key goes at the end. */
  function Put(table: GuidTable, key: string, value: string): GuidTable {
    var j := KeyIndex(table, key);
    if j == -1 then table + [(key, value)] else table[j := (key, value)]
  }

  /** No key appears twice. */
  predicate UniqueKeys(table: GuidTable) {
    forall i, j :: 0 <= i < j < |table| ==> table[i].0 != table[j].0
  }

  /** `projectGuids` after the loop: each new project's name with its GUID, a later
      project of the same name overwriting an earlier one. */
  function GuidsByName(cands: seq<Candidate>, token: nat -> string, start: nat): GuidTable
    decreases |cands|
  {
    if cands == [] then []
    else
      var n := |cands| - 1;
      Put(GuidsByName(cands[..n], token, start), cands[n].name, token(start + n))
  }

  /** No two new projects share a name. */
  predicate DistinctNames(cands: seq<Candidate>) {
    forall i, j :: 0 <= i < j < |cands| ==> cands[i].name != cands[j].name
  }

  /** What `Put` does: a new key is appended; an existing key keeps its place and
      takes the new value; every other entry stays; no key is duplicated. */
  lemma PutEffect(table: GuidTable, key: string, value: string)
    ensures KeyIndex(table, key) == -1 ==> Put(table, key, value) == table + [(key, value)]
    ensures KeyIndex(table, key) != -1 ==>
      && |Put(table, key, value)| == |table|
      && Put(table, key, value)[KeyIndex(table, key)] == (key, value)
    ensures forall j :: 0 <= j < |table| ==> Put(table, key, value)[j].0 == table[j].0
    ensures forall j :: 0 <= j < |table| && table[j].0 != key ==> Put(table, key, value)[j] == table[j]
    ensures KeyIndex(Put(table, key, value), key) != -1
    ensures UniqueKeys(table) ==> UniqueKeys(Put(table, key, value))
  {
    var t' := Put(table, key, value);
    if KeyIndex(table, key) == -1 {
      assert t'[|table|].0 == key;
    } else {
      assert t'[KeyIndex(table, key)].0 == key;
    }
  }

  /** The table names every new project, and no name twice. */
  lemma {:induction false} GuidsByNameShape(cands: seq<Candidate>, token: nat -> string, start: nat)
    ensures UniqueKeys(GuidsByName(cands, token, start))
    ensures forall i :: 0 <= i < |cands| ==> KeyIndex(GuidsByName(cands, token, start), cands[i].name) != -1
    decreases |cands|
  {
    if cands != [] {
      var n := |cands| - 1;
      var init := cands[..n];
      GuidsByNameShape(init, token, start);
      var t := GuidsByName(init, token, start);
      var t' := GuidsByName(cands, token, start);
      assert t' == Put(t, cands[n].name, token(start + n));
      PutEffect(t, cands[n].name, token(start + n));
      forall i | 0 <= i < |cands| ensures KeyIndex(t', cands[i].name) != -1 {
        if i < n {
          assert init[i] == cands[i];
          var j := KeyIndex(t, cands[i].name);
          assert t'[j].0 == cands[i].name;
        }
      }
    }
  }

  /** When the new projects' names are distinct, the table holds every one of them,
      in order, each with its own GUID. */
  lemma {:induction false} GuidsByNameDistinct(cands: seq<Candidate>, token: nat -> string, start: nat)
    requires DistinctNames(cands)
    ensures |GuidsByName(cands, token, start)| == |cands|
    ensures forall i :: 0 <= i < |cands| ==> GuidsByName(cands, token, start)[i] == (cands[i].name, token(start + i))
    decreases |cands|
  {
    if cands != [] {
      var n := |cands| - 1;
      var init := cands[..n];
      assert DistinctNames(init) by {
        forall i, j | 0 <= i < j < |init| ensures init[i].name != init[j].name {
          assert init[i] == cands[i] && init[j] == cands[j];
        }
      }
      GuidsByNameDistinct(init, token, start);
      var t := GuidsByName(init, token, start);
      forall j | 0 <= j < |t| ensures t[j].0 != cands[n].name {
        assert init[j] == cands[j];
      }
      assert KeyIndex(t, cands[n].name) == -1;
      var t' := GuidsByName(cands, token, start);
      assert t' == t + [(cands[n].name, token(start + n))];
      forall i | 0 <= i < |cands| ensures t'[i] == (cands[i].name, token(start + i)) {
        if i < n {
          assert init[i] == cands[i];
        }
      }
    }
  }

  /** Every GUID in the table is one the supply handed out. */
  lemma {:induction false} GuidsByNameGuids(cands: seq<Candidate>, token: nat -> string, start: nat)
    requires forall n :: PlainToken(token(n))
    ensures forall j :: 0 <= j < |GuidsByName(cands, token, start)| ==> PlainToken(GuidsByName(cands, token, start)[j].1)
    decreases |cands|
  {
    if cands != [] {
      var n := |cands| - 1;
      GuidsByNameGuids(cands[..n], token, start);
      var t := GuidsByName(cands[..n], token, start);
      assert GuidsByName(cands, token, start) == Put(t, cands[n].name, token(start + n));
      PutEffect(t, cands[n].name, token(start + n));
    }
  }

  /** One more new project extends its entries, its nesting lines and the table. */
  lemma AppendCandidate(cands: seq<Candidate>, c: Candidate, token: nat -> string, start: nat, folder: string)
    ensures ProjectEntries(cands + [c], token, start)
      == ProjectEntries(cands, token, start) + [ProjectLine(CSharpProjectType, c.name, c.path, token(start + |cands|)), EndProject]
    ensures NestingLines(cands + [c], token, start, folder)
      == NestingLines(cands, token, start, folder) + [NestingLine(token(start + |cands|), folder)]
    ensures GuidsByName(cands + [c], token, start) == Put(GuidsByName(cands, token, start), c.name, token(start + |cands|))
  {
    assert (cands + [c])[..|cands|] == cands;
  }

  /** `configEntries`: the four configuration lines of each table entry, in table order. */
  function ConfigEntries(table: GuidTable): seq<string>
    decreases |table|
  {
    if table == [] then [] else ConfigEntries(table[..|table| - 1]) + ConfigLines(table[|table| - 1].1)
  }

  /** Exactly four configuration lines per table entry, in order. */
  lemma {:induction false} ConfigEntriesShape(table: GuidTable)
    ensures |ConfigEntries(table)| == 4 * |table|
    ensures forall j, k :: 0 <= j < |table| && 0 <= k < 4 ==> ConfigEntries(table)[4 * j + k] == ConfigLines(table[j].1)[k]
    decreases |table|
  {
    if table != [] {
      var n := |table| - 1;
      ConfigEntriesShape(table[..n]);
      forall j | 0 <= j < n ensures table[..n][j] == table[j] { }
    }
  }

  /** The folder entries every call adds: `src`, and `tests` when tests are wanted. */
  function FolderEntries(srcGuid: string, testsGuid: string, includeTests: bool): seq<string> {
    [FolderLine("src", srcGuid), EndProject] + (if includeTests then [FolderLine("tests", testsGuid), EndProject] else [])
  }

  /** The configuration section is written in front of every `EndGlobalSection`. */
  function AddConfigSection(content: string, configEntries: seq<string>): string {
    Replace(content, EndGlobalSection, "\t" + Join(Crlf, configEntries) + Crlf + EndGlobalSection)
  }

  /** With nesting lines, a whole `NestedProjects` section is written in front of
      every `EndGlobalSection`. */
  function AddNestedProjects(content: string, nested: seq<string>): string {
    if nested == [] then content else Replace(content, EndGlobalSection, NestedProjectsSection(nested) + Crlf + EndGlobalSection)
  }

  /** The writes after the loop: the entries go in front of the first `Global`,
      then the configuration lines of the table and, if there are nesting lines,
      their section. A file without `Global` throws. */
  function SectionsWritten(content: string, entries: seq<string>, table: GuidTable, nested: seq<string>): (r: Outcome<string>)
    ensures r.Threw? <==> !Contains(content, GlobalKeyword)
    ensures r.Threw? ==> r == Threw(InvalidOperation(MissingGlobal))
  {
    var q := IndexOf(content, GlobalKeyword);
    if q == -1 then Threw(InvalidOperation(MissingGlobal))
    else
      var withBlock := Insert(content, q, Join(Crlf, entries) + Crlf);
      Returned(AddNestedProjects(AddConfigSection(withBlock, ConfigEntries(table)), nested))
  }

  /** The entries the call writes in front of `Global` for the new projects `cands`:
      the folders take the first two GUIDs of the supply, the projects the ones after. */
  function PlannedEntries(cands: seq<Candidate>, includeTests: bool, guids: GuidSupply): seq<string> {
    FolderEntries(guids.token(guids.next), guids.token(guids.next + 1), includeTests)
      + ProjectEntries(cands, guids.token, guids.next + 2)
  }

  /** The name-to-GUID table of the new projects. */
  function PlannedTable(cands: seq<Candidate>, guids: GuidSupply): GuidTable {
    GuidsByName(cands, guids.token, guids.next + 2)
  }

  /** The nesting lines of the new projects, into the src folder. */
  function PlannedNesting(cands: seq<Candidate>, guids: GuidSupply): seq<string> {
    NestingLines(cands, guids.token, guids.next + 2, guids.token(guids.next))
  }

  /** The text written when `cands` are the new projects, or the exception thrown. */
  function WithProjects(content: string, cands: seq<Candidate>, includeTests: bool, guids: GuidSupply): Outcome<string> {
    SectionsWritten(content, PlannedEntries(cands, includeTests, guids), PlannedTable(cands, guids), PlannedNesting(cands, guids))
  }

  /** The text the call writes, or the exception it throws: it fails exactly when the
      file has no `Global` line to write in front of. */
  function ProjectsAdded(content: string, paths: PathModel, solutionFile: string, ordered: ProjectPaths,
                         includeTests: bool, guids: GuidSupply): (r: Outcome<string>)
    ensures r.Threw? <==> !Contains(content, GlobalKeyword)
    ensures r.Threw? ==> r.exception == InvalidOperation(MissingGlobal)
  {
    WithProjects(content, NewCandidates(content, paths, solutionFile, ordered), includeTests, guids)
  }

  // ---------------------------------------------------------------------------
  // What the written text contains
  // ---------------------------------------------------------------------------

  /** A text that starts with `P` and holds no tab cannot overlap an `EndGlobalSection`
      line, so the edits that follow keep it. */
  lemma TablessUnanchored(t: string)
    requires |t| > 0 && t[0] == 'P' && Lacks(t, '\t')
    ensures Unanchored(t, EndGlobalSection)
  {
    UnanchoredByFirstCharacters(t, EndGlobalSection, 0);
  }

  /** A doubly indented GUID line cannot overlap an `EndGlobalSection` line either. */
  lemma GuidLineUnanchored(guid: string, rest: string)
    requires Lacks(guid, '\t') && Lacks(rest, '\t')
    ensures Unanchored(GuidLine(guid, rest), EndGlobalSection)
  {
    var t := GuidLine(guid, rest);
    var a := EndGlobalSection;
    assert t == "\t\t{" + (guid + "}" + rest);
    forall p | 0 <= p < |t| ensures DisagreesFrom(t, a, p) {
      if p < 2 {
        assert t[p + 1] != a[1];
      } else {
        assert t[p + 0] != a[0];
      }
    }
  }

  /** The entry block keeps every text of it that cannot overlap an `EndGlobalSection`. */
  lemma SectionsKeepEntries(content: string, entries: seq<string>, table: GuidTable, nested: seq<string>, t: string)
    requires Contains(content, GlobalKeyword)
    requires Contains(Join(Crlf, entries), t) && Unanchored(t, EndGlobalSection)
    ensures SectionsWritten(content, entries, table, nested).Returned?
    ensures Contains(SectionsWritten(content, entries, table, nested).value, t)
  {
    var q := IndexOf(content, GlobalKeyword);
    var block := Join(Crlf, entries) + Crlf;
    ContainsExtends(Join(Crlf, entries), Crlf, t);
    ContainsInside(content[..q], block, content[q..], t);
    var withBlock := Insert(content, q, block);
    ReplaceKeepsContained(withBlock, EndGlobalSection, "\t" + Join(Crlf, ConfigEntries(table)) + Crlf + EndGlobalSection, t);
    var withConfig := AddConfigSection(withBlock, ConfigEntries(table));
    if nested != [] {
      ReplaceKeepsContained(withConfig, EndGlobalSection, NestedProjectsSection(nested) + Crlf + EndGlobalSection, t);
    }
  }

  /** A file whose first `Global` comes before its first `EndGlobalSection` still has
      that `EndGlobalSection` once the entry block is in. */
  lemma BlockKeepsSectionEnd(content: string, entries: seq<string>)
    requires Contains(content, EndGlobalSection)
    requires 0 <= IndexOf(content, GlobalKeyword) <= IndexOf(content, EndGlobalSection)
    ensures Contains(Insert(content, IndexOf(content, GlobalKeyword), Join(Crlf, entries) + Crlf), EndGlobalSection)
  {
    InsertKeepsOccurrence(content, IndexOf(content, GlobalKeyword), Join(Crlf, entries) + Crlf,
      EndGlobalSection, IndexOf(content, EndGlobalSection));
  }

  /** In such a file every configuration line is written. */
  lemma SectionsListConfigurations(content: string, entries: seq<string>, table: GuidTable, nested: seq<string>, t: string)
    requires Contains(content, EndGlobalSection)
    requires 0 <= IndexOf(content, GlobalKeyword) <= IndexOf(content, EndGlobalSection)
    requires Contains(Join(Crlf, ConfigEntries(table)), t) && Unanchored(t, EndGlobalSection)
    ensures SectionsWritten(content, entries, table, nested).Returned?
    ensures Contains(SectionsWritten(content, entries, table, nested).value, t)
  {
    var withBlock := Insert(content, IndexOf(content, GlobalKeyword), Join(Crlf, entries) + Crlf);
    BlockKeepsSectionEnd(content, entries);
    var joined := Join(Crlf, ConfigEntries(table));
    var b := "\t" + joined + Crlf + EndGlobalSection;
    ReplaceInserts(withBlock, EndGlobalSection, b);
    ContainsPrepends("\t", joined, t);
    ContainsExtends("\t" + joined, Crlf, t);
    ContainsExtends("\t" + joined + Crlf, EndGlobalSection, t);
    ContainsTrans(Replace(withBlock, EndGlobalSection, b), b, t);
    var withConfig := AddConfigSection(withBlock, ConfigEntries(table));
    if nested != [] {
      ReplaceKeepsContained(withConfig, EndGlobalSection, NestedProjectsSection(nested) + Crlf + EndGlobalSection, t);
    }
  }

  /** The configuration section ends in an `EndGlobalSection` of its own. */
  lemma ConfigKeepsSectionEnd(withBlock: string, configEntries: seq<string>)
    requires Contains(withBlock, EndGlobalSection)
    ensures Contains(AddConfigSection(withBlock, configEntries), EndGlobalSection)
  {
    var prefix := "\t" + Join(Crlf, configEntries) + Crlf;
    var b := prefix + EndGlobalSection;
    ReplaceInserts(withBlock, EndGlobalSection, b);
    ContainsSelf(EndGlobalSection);
    ContainsInside(prefix, EndGlobalSection, "", EndGlobalSection);
    assert prefix + EndGlobalSection + "" == b;
    ContainsTrans(Replace(withBlock, EndGlobalSection, b), b, EndGlobalSection);
  }

  /** In such a file, with nesting lines, every nesting line is written. */
  lemma SectionsNestProjects(content: string, entries: seq<string>, table: GuidTable, nested: seq<string>, t: string)
    requires Contains(content, EndGlobalSection)
    requires 0 <= IndexOf(content, GlobalKeyword) <= IndexOf(content, EndGlobalSection)
    requires nested != [] && Contains(Join(Crlf, nested), t)
    ensures SectionsWritten(content, entries, table, nested).Returned?
    ensures Contains(SectionsWritten(content, entries, table, nested).value, t)
  {
    var withBlock := Insert(content, IndexOf(content, GlobalKeyword), Join(Crlf, entries) + Crlf);
    BlockKeepsSectionEnd(content, entries);
    ConfigKeepsSectionEnd(withBlock, ConfigEntries(table));
    var withConfig := AddConfigSection(withBlock, ConfigEntries(table));
    var b2 := NestedProjectsSection(nested) + Crlf + EndGlobalSection;
    ReplaceInserts(withConfig, EndGlobalSection, b2);
    NestedSectionContains(nested, t);
    ContainsTrans(Replace(withConfig, EndGlobalSection, b2), b2, t);
  }

  /** The new section holds each of its lines. */
  lemma NestedSectionContains(nested: seq<string>, t: string)
    requires Contains(Join(Crlf, nested), t)
    ensures Contains(NestedProjectsSection(nested) + Crlf + EndGlobalSection, t)
  {
    var header := Crlf + "\tGlobalSection(NestedProjects) = preSolution" + Crlf;
    var joined := Join(Crlf, nested);
    ContainsPrepends(header, joined, t);
    ContainsExtends(header + joined, Crlf, t);
    ContainsExtends(header + joined + Crlf, EndGlobalSection, t);
    ContainsExtends(NestedProjectsSection(nested), Crlf, t);
    ContainsExtends(NestedProjectsSection(nested) + Crlf, EndGlobalSection, t);
  }

  /** The two project-type GUIDs and the folder names hold no tab. */
  lemma FixedPartsLackTabs()
    ensures Lacks(CSharpProjectType, '\t') && Lacks(SolutionFolderType, '\t')
    ensures Lacks("src", '\t') && Lacks("tests", '\t')
  {
  }

  /** A project line holds no tab when none of its parts does. */
  lemma ProjectLineLacksTab(typeId: string, name: string, path: string, guid: string)
    requires Lacks(typeId, '\t') && Lacks(name, '\t') && Lacks(path, '\t') && Lacks(guid, '\t')
    ensures ProjectLine(typeId, name, path, guid)[0] == 'P'
    ensures Lacks(ProjectLine(typeId, name, path, guid), '\t')
    ensures Lacks(Entry(ProjectLine(typeId, name, path, guid)), '\t')
  {
    var line := ProjectLine(typeId, name, path, guid);
    LacksConcat("Project(\"", typeId, '\t');
    LacksConcat("Project(\"" + typeId, "\") = \"", '\t');
    LacksConcat("Project(\"" + typeId + "\") = \"", name, '\t');
    LacksConcat("Project(\"" + typeId + "\") = \"" + name, "\", \"", '\t');
    LacksConcat("Project(\"" + typeId + "\") = \"" + name + "\", \"", path, '\t');
    LacksConcat("Project(\"" + typeId + "\") = \"" + name + "\", \"" + path, "\", \"{", '\t');
    LacksConcat("Project(\"" + typeId + "\") = \"" + name + "\", \"" + path + "\", \"{", guid, '\t');
    LacksConcat("Project(\"" + typeId + "\") = \"" + name + "\", \"" + path + "\", \"{" + guid, "}\"", '\t');
    LacksConcat(line, Crlf, '\t');
    LacksConcat(line + Crlf, EndProject, '\t');
  }

  /** An entry whose line has no tab is kept in the written text. */
  lemma EntryKept(content: string, entries: seq<string>, table: GuidTable, nested: seq<string>, k: nat,
                  typeId: string, name: string, path: string, guid: string)
    requires Contains(content, GlobalKeyword)
    requires k + 1 < |entries| && entries[k] == ProjectLine(typeId, name, path, guid) && entries[k + 1] == EndProject
    requires Lacks(typeId, '\t') && Lacks(name, '\t') && Lacks(path, '\t') && Lacks(guid, '\t')
    ensures SectionsWritten(content, entries, table, nested).Returned?
    ensures Contains(SectionsWritten(content, entries, table, nested).value, Entry(ProjectLine(typeId, name, path, guid)))
  {
    JoinContainsPair(Crlf, entries, k);
    ProjectLineLacksTab(typeId, name, path, guid);
    TablessUnanchored(Entry(ProjectLine(typeId, name, path, guid)));
    SectionsKeepEntries(content, entries, table, nested, Entry(ProjectLine(typeId, name, path, guid)));
  }

  /** A configuration line of a GUID without tabs cannot overlap an `EndGlobalSection`. */
  lemma ConfigLineUnanchored(guid: string, k: nat)
    requires Lacks(guid, '\t') && k < 4
    ensures Unanchored(ConfigLines(guid)[k], EndGlobalSection)
  {
    if k == 0 {
      GuidLineUnanchored(guid, ".Debug|Any CPU.ActiveCfg = Debug|Any CPU");
    } else if k == 1 {
      GuidLineUnanchored(guid, ".Debug|Any CPU.Build.0 = Debug|Any CPU");
    } else if k == 2 {
      GuidLineUnanchored(guid, ".Release|Any CPU.ActiveCfg = Release|Any CPU");
    } else {
      GuidLineUnanchored(guid, ".Release|Any CPU.Build.0 = Release|Any CPU");
    }
  }

  /** The GUID of the `i`-th new project: the supply's `next + 2 + i`-th token. */
  function ProjectGuid(guids: GuidSupply, i: nat): string {
    guids.token(guids.next + 2 + i)
  }

  /** The `i`-th new project's entry is kept in the written text. */
  lemma ProjectEntryKept(content: string, cands: seq<Candidate>, includeTests: bool, guids: GuidSupply, i: nat)
    requires Contains(content, GlobalKeyword)
    requires PlainSupply(guids)
    requires i < |cands| && Lacks(cands[i].name, '\t') && Lacks(cands[i].path, '\t')
    ensures WithProjects(content, cands, includeTests, guids).Returned?
    ensures Contains(WithProjects(content, cands, includeTests, guids).value,
      Entry(ProjectLine(CSharpProjectType, cands[i].name, cands[i].path, ProjectGuid(guids, i))))
  {
    var folders := FolderEntries(guids.token(guids.next), guids.token(guids.next + 1), includeTests);
    var projects := ProjectEntries(cands, guids.token, guids.next + 2);
    var entries := PlannedEntries(cands, includeTests, guids);
    ProjectEntriesShape(cands, guids.token, guids.next + 2);
    var k := |folders| + 2 * i;
    assert entries[k] == projects[2 * i] && entries[k + 1] == projects[2 * i + 1];
    assert PlainToken(ProjectGuid(guids, i));
    FixedPartsLackTabs();
    EntryKept(content, entries, PlannedTable(cands, guids), PlannedNesting(cands, guids), k,
      CSharpProjectType, cands[i].name, cands[i].path, ProjectGuid(guids, i));
  }

  /** The src folder's entry is kept in the written text. */
  lemma SrcFolderKept(content: string, cands: seq<Candidate>, includeTests: bool, guids: GuidSupply)
    requires Contains(content, GlobalKeyword)
    requires PlainSupply(guids)
    ensures WithProjects(content, cands, includeTests, guids).Returned?
    ensures Contains(WithProjects(content, cands, includeTests, guids).value, Entry(FolderLine("src", guids.token(guids.next))))
  {
    var entries := PlannedEntries(cands, includeTests, guids);
    assert entries[0] == FolderLine("src", guids.token(guids.next)) && entries[1] == EndProject;
    assert PlainToken(guids.token(guids.next));
    FixedPartsLackTabs();
    EntryKept(content, entries, PlannedTable(cands, guids), PlannedNesting(cands, guids), 0,
      SolutionFolderType, "src", "src", guids.token(guids.next));
  }

  /** The tests folder's entry, when tests are wanted, is kept in the written text. */
  lemma TestsFolderKept(content: string, cands: seq<Candidate>, guids: GuidSupply)
    requires Contains(content, GlobalKeyword)
    requires PlainSupply(guids)
    ensures WithProjects(content, cands, true, guids).Returned?
    ensures Contains(WithProjects(content, cands, true, guids).value, Entry(FolderLine("tests", guids.token(guids.next + 1))))
  {
    var entries := PlannedEntries(cands, true, guids);
    assert entries[2] == FolderLine("tests", guids.token(guids.next + 1)) && entries[3] == EndProject;
    assert PlainToken(guids.token(guids.next + 1));
    FixedPartsLackTabs();
    EntryKept(content, entries, PlannedTable(cands, guids), PlannedNesting(cands, guids), 2,
      SolutionFolderType, "tests", "tests", guids.token(guids.next + 1));
  }

  /** A file with a `Global` section gets the src folder, the tests folder when tests
      are wanted, and every new project, each as a project line followed by
      `EndProject`, with the GUIDs drawn in that order. */
  lemma WithProjectsListsEntries(content: string, cands: seq<Candidate>, includeTests: bool, guids: GuidSupply)
    requires Contains(content, GlobalKeyword)
    requires PlainSupply(guids)
    requires forall i :: 0 <= i < |cands| ==> Lacks(cands[i].name, '\t') && Lacks(cands[i].path, '\t')
    ensures
      var r := WithProjects(content, cands, includeTests, guids);
      && r.Returned?
      && Contains(r.value, Entry(FolderLine("src", guids.token(guids.next))))
      && (includeTests ==> Contains(r.value, Entry(FolderLine("tests", guids.token(guids.next + 1)))))
      && forall i :: 0 <= i < |cands| ==>
           Contains(r.value, Entry(ProjectLine(CSharpProjectType, cands[i].name, cands[i].path, ProjectGuid(guids, i))))
  {
    SrcFolderKept(content, cands, includeTests, guids);
    if includeTests {
      TestsFolderKept(content, cands, guids);
    }
    forall i | 0 <= i < |cands|
      ensures Contains(WithProjects(content, cands, includeTests, guids).value,
        Entry(ProjectLine(CSharpProjectType, cands[i].name, cands[i].path, ProjectGuid(guids, i))))
    {
      ProjectEntryKept(content, cands, includeTests, guids, i);
    }
  }

  /** The `k`-th configuration line of the `j`-th table entry is kept in the written text. */
  lemma ConfigLineKept(content: string, entries: seq<string>, table: GuidTable, nested: seq<string>, j: nat, k: nat)
    requires Contains(content, EndGlobalSection)
    requires 0 <= IndexOf(content, GlobalKeyword) <= IndexOf(content, EndGlobalSection)
    requires j < |table| && k < 4 && PlainToken(table[j].1)
    ensures SectionsWritten(content, entries, table, nested).Returned?
    ensures Contains(SectionsWritten(content, entries, table, nested).value, ConfigLines(table[j].1)[k])
  {
    ConfigEntriesShape(table);
    JoinContainsElement(Crlf, ConfigEntries(table), 4 * j + k);
    ConfigLineUnanchored(table[j].1, k);
    SectionsListConfigurations(content, entries, table, nested, ConfigLines(table[j].1)[k]);
  }

  /** `text` contains every one of `lines`. */
  predicate ContainsAll(text: string, lines: seq<string>) {
    forall k :: 0 <= k < |lines| ==> Contains(text, lines[k])
  }

  /** In a file whose first `Global` comes before its first `EndGlobalSection`, every
      entry of the name-to-GUID table gets its four configuration lines. */
  lemma WithProjectsListsConfigurations(content: string, cands: seq<Candidate>, includeTests: bool, guids: GuidSupply)
    requires Contains(content, EndGlobalSection)
    requires 0 <= IndexOf(content, GlobalKeyword) <= IndexOf(content, EndGlobalSection)
    requires PlainSupply(guids)
    ensures
      var r := WithProjects(content, cands, includeTests, guids);
      var table := PlannedTable(cands, guids);
      && r.Returned?
      && forall j :: 0 <= j < |table| ==> ContainsAll(r.value, ConfigLines(table[j].1))
  {
    var table := PlannedTable(cands, guids);
    GuidsByNameGuids(cands, guids.token, guids.next + 2);
    forall j, k | 0 <= j < |table| && 0 <= k < 4
      ensures Contains(WithProjects(content, cands, includeTests, guids).value, ConfigLines(table[j].1)[k])
    {
      ConfigLineKept(content, PlannedEntries(cands, includeTests, guids), table, PlannedNesting(cands, guids), j, k);
    }
  }

  /** In such a file, with project names that differ, every new project gets the four
      configuration lines of its own GUID. */
  lemma WithProjectsConfiguresEachProject(content: string, cands: seq<Candidate>, includeTests: bool, guids: GuidSupply)
    requires Contains(content, EndGlobalSection)
    requires 0 <= IndexOf(content, GlobalKeyword) <= IndexOf(content, EndGlobalSection)
    requires PlainSupply(guids)
    requires DistinctNames(cands)
    ensures
      var r := WithProjects(content, cands, includeTests, guids);
      && r.Returned?
      && forall i :: 0 <= i < |cands| ==> ContainsAll(r.value, ConfigLines(ProjectGuid(guids, i)))
  {
    WithProjectsListsConfigurations(content, cands, includeTests, guids);
    ConfiguredByTable(WithProjects(content, cands, includeTests, guids).value, cands, guids);
  }

  /** A text that holds the configuration lines of every table entry holds those of
      every new project, when the projects' names differ. */
  lemma ConfiguredByTable(text: string, cands: seq<Candidate>, guids: GuidSupply)
    requires DistinctNames(cands)
    requires forall j :: 0 <= j < |PlannedTable(cands, guids)| ==> ContainsAll(text, ConfigLines(PlannedTable(cands, guids)[j].1))
    ensures forall i :: 0 <= i < |cands| ==> ContainsAll(text, ConfigLines(ProjectGuid(guids, i)))
  {
    var table := PlannedTable(cands, guids);
    GuidsByNameDistinct(cands, guids.token, guids.next + 2);
    forall i | 0 <= i < |cands| ensures ContainsAll(text, ConfigLines(ProjectGuid(guids, i))) {
      assert ProjectGuid(guids, i) == table[i].1;
    }
  }

  /** Every nesting line is kept in the written text. */
  lemma NestingLinesKept(content: string, entries: seq<string>, table: GuidTable, nested: seq<string>)
    requires Contains(content, EndGlobalSection)
    requires 0 <= IndexOf(content, GlobalKeyword) <= IndexOf(content, EndGlobalSection)
    ensures SectionsWritten(content, entries, table, nested).Returned?
    ensures forall i :: 0 <= i < |nested| ==> Contains(SectionsWritten(content, entries, table, nested).value, nested[i])
  {
    forall i | 0 <= i < |nested| ensures Contains(SectionsWritten(content, entries, table, nested).value, nested[i]) {
      JoinContainsElement(Crlf, nested, i);
      SectionsNestProjects(content, entries, table, nested, nested[i]);
    }
  }

  /** In such a file, every new project is nested into the src folder. */
  lemma WithProjectsNestsProjects(content: string, cands: seq<Candidate>, includeTests: bool, guids: GuidSupply)
    requires Contains(content, EndGlobalSection)
    requires 0 <= IndexOf(content, GlobalKeyword) <= IndexOf(content, EndGlobalSection)
    ensures
      var r := WithProjects(content, cands, includeTests, guids);
      && r.Returned?
      && forall i :: 0 <= i < |cands| ==> Contains(r.value, NestingLine(ProjectGuid(guids, i), guids.token(guids.next)))
  {
    var nested := PlannedNesting(cands, guids);
    NestingLinesShape(cands, guids.token, guids.next + 2, guids.token(guids.next));
    forall i | 0 <= i < |cands| ensures NestingLine(ProjectGuid(guids, i), guids.token(guids.next)) == nested[i] { }
    NestingLinesKept(content, PlannedEntries(cands, includeTests, guids), PlannedTable(cands, guids), nested);
  }

  /** `AddProjectsToSolutionAsync`. Reads the solution file, draws GUIDs for the src
      and tests folders and for every project it adds, and writes the file back. */
  method AddProjectsToSolution(fs: FileSystem, paths: PathModel, solutionFile: string, projectPaths: ProjectPaths,
                               config: SolutionConfiguration, guids: GuidSupply)
    returns (r: Outcome<()>, fs': FileSystem, guids': GuidSupply)
    ensures solutionFile !in fs ==> r == Threw(FileNotFound(solutionFile)) && fs' == fs && guids' == guids
    ensures solutionFile in fs ==>
      var content := fs[solutionFile];
      var ordered := OrderByRank(projectPaths);
      var cands := NewCandidates(content, paths, solutionFile, ordered);
      var added := ProjectsAdded(content, paths, solutionFile, ordered, config.includeTests, guids);
      && (r.Threw? <==> !Contains(content, GlobalKeyword))
      && (r.Threw? ==> r == Threw(InvalidOperation(MissingGlobal)) && fs' == fs)
      && (r.Returned? ==> added.Returned? && fs' == fs[solutionFile := added.value])
      && guids'.token == guids.token
      && guids'.next == guids.next + 2 + |cands| + (if r.Returned? && cands != [] then 1 else 0)
  {
    var read := ReadAllText(fs, solutionFile);
    if read.Threw? {
      return Threw(read.exception), fs, guids;
    }
    var written;
    written, guids' := SolutionText(read.value, paths, solutionFile, OrderByRank(projectPaths), config.includeTests, guids);
    if written.Threw? {
      return Threw(written.exception), fs, guids';
    }
    fs' := fs[solutionFile := written.value];
    r := Returned(());
  }

  /** The body of `AddProjectsToSolutionAsync` between the read and the write: the
      new text, or the exception, and the GUIDs drawn on the way. */
  method SolutionText(content: string, paths: PathModel, solutionFile: string, ordered: ProjectPaths,
                      includeTests: bool, guids: GuidSupply)
    returns (r: Outcome<string>, guids': GuidSupply)
    ensures r == ProjectsAdded(content, paths, solutionFile, ordered, includeTests, guids)
    ensures guids'.token == guids.token
    ensures guids'.next == guids.next + 2 + |NewCandidates(content, paths, solutionFile, ordered)|
      + (if IndexOf(content, GlobalKeyword) != -1 && NewCandidates(content, paths, solutionFile, ordered) != [] then 1 else 0)
  {
    var entries, table, nested, g := SolutionEntries(content, paths, solutionFile, ordered, includeTests, guids);
    r, guids' := WriteSections(content, entries, table, nested, g);
  }

  /** The entries, the table and the nesting lines the call builds before it writes:
      the folders take the first two GUIDs, the new projects the ones after. */
  method SolutionEntries(content: string, paths: PathModel, solutionFile: string, ordered: ProjectPaths,
                         includeTests: bool, guids: GuidSupply)
    returns (entries: seq<string>, table: GuidTable, nested: seq<string>, guids': GuidSupply)
    ensures entries == PlannedEntries(NewCandidates(content, paths, solutionFile, ordered), includeTests, guids)
    ensures table == PlannedTable(NewCandidates(content, paths, solutionFile, ordered), guids)
    ensures nested == PlannedNesting(NewCandidates(content, paths, solutionFile, ordered), guids)
    ensures guids' == guids.(next := guids.next + 2 + |NewCandidates(content, paths, solutionFile, ordered)|)
    ensures |nested| == |NewCandidates(content, paths, solutionFile, ordered)|
  {
    var g := guids;
    var srcGuid := g.token(g.next);
    g := NewGuid(g).1;
    var testsGuid := g.token(g.next);
    g := NewGuid(g).1;

    entries := [FolderLine("src", srcGuid), EndProject];
    if includeTests {
      entries := entries + [FolderLine("tests", testsGuid), EndProject];
    }
    assert entries == FolderEntries(srcGuid, testsGuid, includeTests);
    assert g == guids.(next := guids.next + 2);
    // The source returns early when it has no entries; the src folder entry rules that out.
    entries, table, nested, guids' := CollectProjects(content, paths, solutionFile, ordered, srcGuid, g, entries);
  }

  /** The writes after the loop: the entries go in front of `Global`, then the
      configuration lines and, if there are nesting lines, their section. */
  method WriteSections(content: string, entries: seq<string>, table: GuidTable, nested: seq<string>, guids: GuidSupply)
    returns (r: Outcome<string>, guids': GuidSupply)
    ensures r == SectionsWritten(content, entries, table, nested)
    ensures guids'.token == guids.token
    ensures guids'.next == guids.next + (if IndexOf(content, GlobalKeyword) != -1 && nested != [] then 1 else 0)
  {
    guids' := guids;
    var section := Join(Crlf, entries);
    var globalIndex := IndexOf(content, GlobalKeyword);
    if globalIndex == -1 {
      return Threw(InvalidOperation(MissingGlobal)), guids';
    }
    var text := Insert(content, globalIndex, section + Crlf);

    var configEntries := ConfigurationEntries(table);
    text := Replace(text, EndGlobalSection, "\t" + Join(Crlf, configEntries) + Crlf + EndGlobalSection);

    if |nested| > 0 {
      guids' := NewGuid(guids').1;  // the section's own GUID, which the source never uses
      text := Replace(text, EndGlobalSection, NestedProjectsSection(nested) + Crlf + EndGlobalSection);
    }
    r := Returned(text);
  }

  /** The loop over the ordered projects: each one the file does not list yet gets a
      fresh GUID, a table entry, a project entry and a nesting line into `srcGuid`. */
  method CollectProjects(content: string, paths: PathModel, solutionFile: string, ordered: ProjectPaths,
                         srcGuid: string, guids: GuidSupply, entries0: seq<string>)
    returns (entries: seq<string>, table: GuidTable, nested: seq<string>, guids': GuidSupply)
    ensures
      var cands := NewCandidates(content, paths, solutionFile, ordered);
      && entries == entries0 + ProjectEntries(cands, guids.token, guids.next)
      && nested == NestingLines(cands, guids.token, guids.next, srcGuid)
      && table == GuidsByName(cands, guids.token, guids.next)
      && guids' == guids.(next := guids.next + |cands|)
      && |nested| == |cands|
  {
    var added: seq<string> := [];
    table, nested, guids' := [], [], guids;
    var i := 0;
    ghost var cands: seq<Candidate> := [];
    while i < |ordered|
      invariant 0 <= i <= |ordered|
      invariant cands == NewCandidates(content, paths, solutionFile, ordered[..i])
      invariant guids' == guids.(next := guids.next + |cands|)
      invariant added == ProjectEntries(cands, guids.token, guids.next)
      invariant nested == NestingLines(cands, guids.token, guids.next, srcGuid)
      invariant table == GuidsByName(cands, guids.token, guids.next)
    {
      var c := CandidateOf(paths, solutionFile, ordered[i].1);
      NewCandidatesStep(content, paths, solutionFile, ordered, i);
      if !AlreadyListed(content, c.name, c.path) {
        guids', added, nested, table := RecordProject(cands, c, srcGuid, guids, guids', added, nested, table);
        cands := cands + [c];
      }
      i := i + 1;
    }
    assert ordered[..|ordered|] == ordered;
    entries := entries0 + added;
    NestingLinesShape(cands, guids.token, guids.next, srcGuid);
  }

  /** The body of that loop for a project the file does not list: it draws the
      project's GUID and records the project under it. */
  method RecordProject(ghost cands: seq<Candidate>, c: Candidate, srcGuid: string, ghost guids: GuidSupply,
                       g: GuidSupply, added: seq<string>, nested: seq<string>, table: GuidTable)
    returns (g': GuidSupply, added': seq<string>, nested': seq<string>, table': GuidTable)
    requires g == guids.(next := guids.next + |cands|)
    requires added == ProjectEntries(cands, guids.token, guids.next)
    requires nested == NestingLines(cands, guids.token, guids.next, srcGuid)
    requires table == GuidsByName(cands, guids.token, guids.next)
    ensures g' == guids.(next := guids.next + |cands + [c]|)
    ensures added' == ProjectEntries(cands + [c], guids.token, guids.next)
    ensures nested' == NestingLines(cands + [c], guids.token, guids.next, srcGuid)
    ensures table' == GuidsByName(cands + [c], guids.token, guids.next)
  {
    var drawn := NewGuid(g);
    var guid := drawn.0;
    g' := drawn.1;
    AppendCandidate(cands, c, guids.token, guids.next, srcGuid);
    table' := Put(table, c.name, guid);
    added' := added + [ProjectLine(CSharpProjectType, c.name, c.path, guid), EndProject];
    nested' := nested + [NestingLine(guid, srcGuid)];
  }

  /** The loop over the table: four configuration lines per entry. */
  method ConfigurationEntries(table: GuidTable) returns (configEntries: seq<string>)
    ensures configEntries == ConfigEntries(table)
  {
    configEntries := [];
    var j := 0;
    while j < |table|
      invariant 0 <= j <= |table|
      invariant configEntries == ConfigEntries(table[..j])
    {
      assert table[..j + 1][..j] == table[..j];
      configEntries := configEntries + ConfigLines(table[j].1);
      j := j + 1;
    }
    assert table[..|table|] == table;
  }
}

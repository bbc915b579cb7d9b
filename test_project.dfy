/** `SolutionGenerator.AddTestProjectToSolutionAsync`: list one generated test project
    in the `.sln` file, inside the `tests` solution folder (created when the file has
    none), with its build configurations and its place in the folder tree. */
module TestProject {
  import opened Outcomes
  import opened Text
  import opened Environment
  import opened SolutionFile
  import opened SolutionGenerator

  // ---------------------------------------------------------------------------
  // The blocks of text the call inserts
  // ---------------------------------------------------------------------------

  /** The `tests` folder's entry, inserted when the file has no such folder. */
  function TestsFolderBlock(folderGuid: string): string {
    Entry(FolderLine("tests", folderGuid)) + Crlf
  }

  /** The test project's entry. */
  function TestEntryBlock(name: string, path: string, guid: string): string {
    Entry(ProjectLine(CSharpProjectType, name, path, guid)) + Crlf
  }

  /** The test project's four configuration lines, each ending in CRLF. */
  function TestConfigBlock(guid: string): string {
    Join(Crlf, ConfigLines(guid)) + Crlf
  }

  // ---------------------------------------------------------------------------
  // The steps, in the order the source takes them
  // ---------------------------------------------------------------------------

  /** The tests folder: when the pattern found none (`found` is `None`), its entry goes
      in front of the first `Global`; `String.Insert` throws when there is none. */
  function WithTestsFolder(content: string, found: Option<string>, folderGuid: string): Outcome<string> {
    if found.Some? then Returned(content)
    else
      var q := IndexOf(content, GlobalKeyword);
      if q == -1 then Threw(ArgumentOutOfRange) else Returned(Insert(content, q, TestsFolderBlock(folderGuid)))
  }

  /** The project's entry goes in front of the first `Global`. */
  function WithTestEntry(s: string, name: string, path: string, guid: string): Outcome<string> {
    var q := IndexOf(s, GlobalKeyword);
    if q == -1 then Threw(InvalidOperation(MissingGlobal)) else Returned(Insert(s, q, TestEntryBlock(name, path, guid)))
  }

  /** The project's entry step, taken only when the step before it returned. */
  function EntryAfter(prior: Outcome<string>, name: string, path: string, guid: string): Outcome<string> {
    match prior
    case Threw(e) => Threw(e)
    case Returned(s1) => WithTestEntry(s1, name, path, guid)
  }

  /** Both entries: the folder's (if missing) and then the project's. */
  function WithTestEntries(content: string, name: string, path: string, found: Option<string>, guid: string, folderGuid: string): Outcome<string> {
    EntryAfter(WithTestsFolder(content, found, folderGuid), name, path, guid)
  }

  /** The configuration lines go in front of the last `EndGlobalSection`. */
  function WithTestConfig(s: string, guid: string): Outcome<string> {
    var q := LastIndexOf(s, EndGlobalSection);
    if q == -1 then Threw(InvalidOperation(MissingEndGlobalSection)) else Returned(Insert(s, q, TestConfigBlock(guid)))
  }

  /** The nesting line: in front of the first `EndGlobalSection` after an existing
      `NestedProjects` section's header (nothing when there is none after it), or, when
      the file has no such section, in a new one in front of every `EndGlobalSection`. */
  function WithTestNesting(s: string, guid: string, folder: string): string {
    var line := NestingLine(guid, folder);
    var n := IndexOf(s, NestedProjectsKeyword);
    if n == -1 then Replace(s, EndGlobalSection, NestedProjectsSection([line]) + Crlf + EndGlobalSection)
    else
      var e := IndexOfFrom(s, EndGlobalSection, n);
      if e == -1 then s else Insert(s, e, line + Crlf)
  }

  /** The tests folder's GUID: the one found, or the one drawn for a new folder. */
  function TestFolder(found: Option<string>, folderGuid: string): string {
    if found.Some? then found.value else folderGuid
  }

  /** The text written for a test project the file does not list yet, or the exception
      thrown. `guid` is the project's GUID, drawn first; `folderGuid` is the one drawn
      second, for a tests folder the file lacks.
      Only the three failures of the steps can come out, and a file without `Global`
      always fails: out of range when the tests folder has to be created, for the
      missing `Global` otherwise. */
  function TestProjectAdded(content: string, name: string, path: string, found: Option<string>, guid: string, folderGuid: string): (r: Outcome<string>)
    ensures r.Threw? ==> r.exception in {ArgumentOutOfRange, InvalidOperation(MissingGlobal), InvalidOperation(MissingEndGlobalSection)}
    ensures !Contains(content, GlobalKeyword) ==> r == Threw(if found.None? then ArgumentOutOfRange else InvalidOperation(MissingGlobal))
  {
    var s2 := WithTestEntries(content, name, path, found, guid, folderGuid);
    if s2.Threw? then s2
    else
      var s3 := WithTestConfig(s2.value, guid);
      if s3.Threw? then s3 else Returned(WithTestNesting(s3.value, guid, TestFolder(found, folderGuid)))
  }

  // ---------------------------------------------------------------------------
  // Facts about the blocks
  // ---------------------------------------------------------------------------

  /** A project line lacks every character its parts and its fixed text lack. */
  lemma ProjectLineLacks(typeId: string, name: string, path: string, guid: string, c: char)
    requires Lacks(typeId, c) && Lacks(name, c) && Lacks(path, c) && Lacks(guid, c)
    requires c != 'P' && c != 'r' && c != 'o' && c != 'j' && c != 'e' && c != 'c' && c != 't'
    requires c != '(' && c != ')' && c != '"' && c != ' ' && c != '=' && c != ',' && c != '{' && c != '}'
    ensures Lacks(ProjectLine(typeId, name, path, guid), c)
  {
    LacksConcat("Project(\"", typeId, c);
    LacksConcat("Project(\"" + typeId, "\") = \"", c);
    LacksConcat("Project(\"" + typeId + "\") = \"", name, c);
    LacksConcat("Project(\"" + typeId + "\") = \"" + name, "\", \"", c);
    LacksConcat("Project(\"" + typeId + "\") = \"" + name + "\", \"", path, c);
    LacksConcat("Project(\"" + typeId + "\") = \"" + name + "\", \"" + path, "\", \"{", c);
    LacksConcat("Project(\"" + typeId + "\") = \"" + name + "\", \"" + path + "\", \"{", guid, c);
    LacksConcat("Project(\"" + typeId + "\") = \"" + name + "\", \"" + path + "\", \"{" + guid, "}\"", c);
  }

  /** An entry block lacks every character its line and its fixed text lack. */
  lemma EntryBlockLacks(line: string, c: char)
    requires Lacks(line, c)
    requires c != 'E' && c != 'n' && c != 'd' && c != 'P' && c != 'r' && c != 'o' && c != 'j' && c != 'e' && c != 'c' && c != 't'
    requires c != '\r' && c != '\n'
    ensures Lacks(Entry(line) + Crlf, c)
  {
    LacksConcat(line, Crlf, c);
    LacksConcat(line + Crlf, EndProject, c);
    LacksConcat(line + Crlf + EndProject, Crlf, c);
  }

  /** The inserted entries start with their own entry lines (and so with `P`), hold no
      tab, and the folder's holds none of `Global`'s first letter. */
  lemma EntryBlocksLack(name: string, path: string, guid: string, folderGuid: string)
    requires Lacks(name, '\t') && Lacks(path, '\t') && PlainToken(guid) && PlainToken(folderGuid)
    ensures StartsWith(TestEntryBlock(name, path, guid), Entry(ProjectLine(CSharpProjectType, name, path, guid)))
    ensures TestEntryBlock(name, path, guid)[0] == 'P' && Lacks(TestEntryBlock(name, path, guid), '\t')
    ensures StartsWith(TestsFolderBlock(folderGuid), Entry(FolderLine("tests", folderGuid)))
    ensures TestsFolderBlock(folderGuid)[0] == 'P' && Lacks(TestsFolderBlock(folderGuid), '\t')
    ensures Lacks(TestsFolderBlock(folderGuid), 'G')
  {
    FixedPartsLackTabs();
    ProjectLineLacks(CSharpProjectType, name, path, guid, '\t');
    EntryBlockLacks(ProjectLine(CSharpProjectType, name, path, guid), '\t');
    ProjectLineLacks(SolutionFolderType, "tests", "tests", folderGuid, '\t');
    EntryBlockLacks(FolderLine("tests", folderGuid), '\t');
    assert Lacks(SolutionFolderType, 'G') && Lacks("tests", 'G');
    ProjectLineLacks(SolutionFolderType, "tests", "tests", folderGuid, 'G');
    EntryBlockLacks(FolderLine("tests", folderGuid), 'G');
    var entry := Entry(ProjectLine(CSharpProjectType, name, path, guid));
    assert TestEntryBlock(name, path, guid)[..|entry|] == entry;
    var folderEntry := Entry(FolderLine("tests", folderGuid));
    assert TestsFolderBlock(folderGuid)[..|folderEntry|] == folderEntry;
  }

  /** Inserting, in front of the first `Global`, a block that holds no tab and starts
      with `P` creates no `EndGlobalSection`, and the `Global` stays. */
  lemma NoSectionEndCreated(s: string, x: string)
    requires Contains(s, GlobalKeyword) && !Contains(s, EndGlobalSection)
    requires |x| > 0 && x[0] == 'P' && Lacks(x, '\t')
    ensures IndexOf(s, GlobalKeyword) >= 0
    ensures !Contains(Insert(s, IndexOf(s, GlobalKeyword), x), EndGlobalSection)
    ensures Contains(Insert(s, IndexOf(s, GlobalKeyword), x), GlobalKeyword)
  {
    var q := IndexOf(s, GlobalKeyword);
    InsertCreatesNoOccurrence(s, q, x, EndGlobalSection);
    InsertKeepsOccurrence(s, q, x, GlobalKeyword, q);
  }

  /** Inserting in front of the first `Global` keeps it and keeps an `EndGlobalSection`
      that does not come before it. */
  lemma InsertBeforeGlobal(s: string, x: string, i: nat)
    requires OccursAt(s, EndGlobalSection, i) && 0 <= IndexOf(s, GlobalKeyword) <= i
    ensures
      var r := Insert(s, IndexOf(s, GlobalKeyword), x);
      && OccursAt(r, EndGlobalSection, i + |x|)
      && 0 <= IndexOf(r, GlobalKeyword) <= i + |x|
  {
    var q := IndexOf(s, GlobalKeyword);
    InsertShiftsOccurrence(s, q, x, EndGlobalSection, i);
    InsertShiftsOccurrence(s, q, x, GlobalKeyword, q);
  }

  /** What an inserted block starts with occurs in the result. */
  lemma InsertedStartOccurs(s: string, q: nat, x: string, t: string)
    requires q <= |s| && StartsWith(x, t)
    ensures Contains(Insert(s, q, x), t)
  {
    assert Insert(s, q, x)[q..q + |t|] == t;
    assert OccursAt(Insert(s, q, x), t, q);
  }

  /** A block inserted in front of the first `Global`, when it holds no `G`, keeps what
      it starts with when a second block goes in front of the first `Global`. */
  lemma FirstBlockKept(content: string, x1: string, t: string, x2: string)
    requires Contains(content, GlobalKeyword)
    requires |x1| > 0 && x1[0] == 'P' && Lacks(x1, 'G') && StartsWith(x1, t)
    ensures
      var s1 := Insert(content, IndexOf(content, GlobalKeyword), x1);
      && IndexOf(s1, GlobalKeyword) >= 0
      && Contains(Insert(s1, IndexOf(s1, GlobalKeyword), x2), t)
  {
    var q := IndexOf(content, GlobalKeyword);
    var s1 := Insert(content, q, x1);
    IndexOfPastInsert(content, q, x1, GlobalKeyword);
    assert s1[q..q + |t|] == t;
    InsertKeepsOccurrence(s1, q + |x1|, x2, t, q);
  }

  /** Both entries are the entry step taken after the folder step. */
  lemma EntriesSteps(content: string, name: string, path: string, found: Option<string>, guid: string, folderGuid: string)
    ensures WithTestEntries(content, name, path, found, guid, folderGuid)
      == EntryAfter(WithTestsFolder(content, found, folderGuid), name, path, guid)
  {
  }

  /** Once the step before it has returned, the entry step runs on what it returned. */
  lemma EntryAfterReturned(prior: Outcome<string>, s1: string, name: string, path: string, guid: string)
    requires prior == Returned(s1)
    ensures EntryAfter(prior, name, path, guid) == WithTestEntry(s1, name, path, guid)
  {
  }

  // ---------------------------------------------------------------------------
  // When the call throws
  // ---------------------------------------------------------------------------

  /** With a `Global` but no `EndGlobalSection`, the folder step succeeds, keeps the
      `Global` and writes no `EndGlobalSection`. */
  lemma FolderStepWithoutSectionEnd(content: string, found: Option<string>, folderGuid: string)
    requires Contains(content, GlobalKeyword) && !Contains(content, EndGlobalSection)
    requires PlainToken(folderGuid)
    ensures WithTestsFolder(content, found, folderGuid).Returned?
    ensures Contains(WithTestsFolder(content, found, folderGuid).value, GlobalKeyword)
    ensures !Contains(WithTestsFolder(content, found, folderGuid).value, EndGlobalSection)
  {
    if found.None? {
      EntryBlocksLack("", "", "", folderGuid);
      NoSectionEndCreated(content, TestsFolderBlock(folderGuid));
    }
  }

  /** With a `Global` but no `EndGlobalSection`, the entry step succeeds and writes no
      `EndGlobalSection`. */
  lemma EntryStepWithoutSectionEnd(s: string, name: string, path: string, guid: string)
    requires Contains(s, GlobalKeyword) && !Contains(s, EndGlobalSection)
    requires Lacks(name, '\t') && Lacks(path, '\t') && PlainToken(guid)
    ensures WithTestEntry(s, name, path, guid).Returned?
    ensures !Contains(WithTestEntry(s, name, path, guid).value, EndGlobalSection)
  {
    EntryBlocksLack(name, path, guid, "");
    NoSectionEndCreated(s, TestEntryBlock(name, path, guid));
  }

  /** Without a `Global`, the call throws: `ArgumentOutOfRange` when it has to create
      the tests folder, `InvalidOperation` otherwise. With a `Global` but no
      `EndGlobalSection`, it throws `InvalidOperation` for the missing section end. */
  lemma TestProjectAddedFails(content: string, name: string, path: string, found: Option<string>, guid: string, folderGuid: string)
    requires Lacks(name, '\t') && Lacks(path, '\t') && PlainToken(guid) && PlainToken(folderGuid)
    ensures !Contains(content, GlobalKeyword) && found.None? ==>
      TestProjectAdded(content, name, path, found, guid, folderGuid) == Threw(ArgumentOutOfRange)
    ensures !Contains(content, GlobalKeyword) && found.Some? ==>
      TestProjectAdded(content, name, path, found, guid, folderGuid) == Threw(InvalidOperation(MissingGlobal))
    ensures Contains(content, GlobalKeyword) && !Contains(content, EndGlobalSection) ==>
      TestProjectAdded(content, name, path, found, guid, folderGuid) == Threw(InvalidOperation(MissingEndGlobalSection))
  {
    if Contains(content, GlobalKeyword) && !Contains(content, EndGlobalSection) {
      FolderStepWithoutSectionEnd(content, found, folderGuid);
      var s1 := WithTestsFolder(content, found, folderGuid).value;
      EntryStepWithoutSectionEnd(s1, name, path, guid);
      EntriesSteps(content, name, path, found, guid, folderGuid);
      EntryAfterReturned(WithTestsFolder(content, found, folderGuid), s1, name, path, guid);
      assert LastIndexOf(WithTestEntries(content, name, path, found, guid, folderGuid).value, EndGlobalSection) == -1;
    }
  }

  // ---------------------------------------------------------------------------
  // What the written text contains
  // ---------------------------------------------------------------------------

  /** The folder step keeps the first `Global` in front of an `EndGlobalSection`. */
  lemma FolderStepKeepsOrder(content: string, found: Option<string>, folderGuid: string, i: nat)
    requires OccursAt(content, EndGlobalSection, i) && 0 <= IndexOf(content, GlobalKeyword) <= i
    ensures
      var s1 := WithTestsFolder(content, found, folderGuid);
      var i1 := if found.Some? then i else i + |TestsFolderBlock(folderGuid)|;
      s1.Returned? && OccursAt(s1.value, EndGlobalSection, i1) && 0 <= IndexOf(s1.value, GlobalKeyword) <= i1
  {
    if found.None? {
      InsertBeforeGlobal(content, TestsFolderBlock(folderGuid), i);
    }
  }

  /** The entry step, with the first `Global` in front of an `EndGlobalSection`, writes
      the project's entry and keeps an `EndGlobalSection`. */
  lemma EntryStepWrites(s: string, name: string, path: string, guid: string, i: nat)
    requires OccursAt(s, EndGlobalSection, i) && 0 <= IndexOf(s, GlobalKeyword) <= i
    requires Lacks(name, '\t') && Lacks(path, '\t') && PlainToken(guid)
    ensures WithTestEntry(s, name, path, guid).Returned?
    ensures Contains(WithTestEntry(s, name, path, guid).value, EndGlobalSection)
    ensures Contains(WithTestEntry(s, name, path, guid).value, Entry(ProjectLine(CSharpProjectType, name, path, guid)))
  {
    InsertBeforeGlobal(s, TestEntryBlock(name, path, guid), i);
    EntryBlocksLack(name, path, guid, "");
    InsertedStartOccurs(s, IndexOf(s, GlobalKeyword), TestEntryBlock(name, path, guid), Entry(ProjectLine(CSharpProjectType, name, path, guid)));
  }

  /** A tests folder entry written by the folder step survives the entry step. */
  lemma FolderEntryKept(content: string, name: string, path: string, guid: string, folderGuid: string)
    requires Contains(content, GlobalKeyword) && PlainToken(folderGuid)
    ensures WithTestsFolder(content, None, folderGuid).Returned?
    ensures WithTestEntry(WithTestsFolder(content, None, folderGuid).value, name, path, guid).Returned?
    ensures Contains(WithTestEntry(WithTestsFolder(content, None, folderGuid).value, name, path, guid).value,
      Entry(FolderLine("tests", folderGuid)))
  {
    EntryBlocksLack("", "", "", folderGuid);
    FirstBlockKept(content, TestsFolderBlock(folderGuid), Entry(FolderLine("tests", folderGuid)), TestEntryBlock(name, path, guid));
  }

  /** In a file whose first `Global` comes before its first `EndGlobalSection`, both
      entries go in and an `EndGlobalSection` remains. */
  lemma TestEntriesWritten(content: string, name: string, path: string, found: Option<string>, guid: string, folderGuid: string)
    requires Contains(content, EndGlobalSection)
    requires 0 <= IndexOf(content, GlobalKeyword) <= IndexOf(content, EndGlobalSection)
    requires Lacks(name, '\t') && Lacks(path, '\t') && PlainToken(guid) && PlainToken(folderGuid)
    ensures
      var s2 := WithTestEntries(content, name, path, found, guid, folderGuid);
      && s2.Returned?
      && Contains(s2.value, EndGlobalSection)
      && Contains(s2.value, Entry(ProjectLine(CSharpProjectType, name, path, guid)))
      && (found.None? ==> Contains(s2.value, Entry(FolderLine("tests", folderGuid))))
  {
    var i := IndexOf(content, EndGlobalSection);
    FolderStepKeepsOrder(content, found, folderGuid, i);
    var s1 := WithTestsFolder(content, found, folderGuid).value;
    EntryStepWrites(s1, name, path, guid, if found.Some? then i else i + |TestsFolderBlock(folderGuid)|);
    if found.None? {
      FolderEntryKept(content, name, path, guid, folderGuid);
    }
    EntriesSteps(content, name, path, found, guid, folderGuid);
    EntryAfterReturned(WithTestsFolder(content, found, folderGuid), s1, name, path, guid);
  }

  /** The last two steps keep every text that cannot overlap an `EndGlobalSection`. */
  lemma LastStepsKeep(s: string, guid: string, folder: string, t: string)
    requires Contains(s, EndGlobalSection) && Contains(s, t) && Unanchored(t, EndGlobalSection)
    ensures WithTestConfig(s, guid).Returned?
    ensures Contains(WithTestNesting(WithTestConfig(s, guid).value, guid, folder), t)
  {
    var e := LastIndexOf(s, EndGlobalSection);
    InsertAtUnanchoredKeeps(s, EndGlobalSection, e, TestConfigBlock(guid), t);
    NestingKeeps(WithTestConfig(s, guid).value, guid, folder, t);
  }

  /** The nesting step keeps every text that cannot overlap an `EndGlobalSection`. */
  lemma NestingKeeps(s: string, guid: string, folder: string, t: string)
    requires Contains(s, t) && Unanchored(t, EndGlobalSection)
    ensures Contains(WithTestNesting(s, guid, folder), t)
  {
    var line := NestingLine(guid, folder);
    var n := IndexOf(s, NestedProjectsKeyword);
    if n == -1 {
      ReplaceKeepsContained(s, EndGlobalSection, NestedProjectsSection([line]) + Crlf + EndGlobalSection, t);
    } else {
      var e := IndexOfFrom(s, EndGlobalSection, n);
      if e != -1 {
        InsertAtUnanchoredKeeps(s, EndGlobalSection, e, line + Crlf, t);
      }
    }
  }

  /** The configuration step writes the four configuration lines and the nesting step
      keeps them. */
  lemma LastStepsConfigure(s: string, guid: string, folder: string)
    requires Contains(s, EndGlobalSection) && Lacks(guid, '\t')
    ensures WithTestConfig(s, guid).Returned?
    ensures ContainsAll(WithTestNesting(WithTestConfig(s, guid).value, guid, folder), ConfigLines(guid))
  {
    var e := LastIndexOf(s, EndGlobalSection);
    var s3 := Insert(s, e, TestConfigBlock(guid));
    forall k | 0 <= k < 4 ensures Contains(WithTestNesting(s3, guid, folder), ConfigLines(guid)[k]) {
      JoinContainsElement(Crlf, ConfigLines(guid), k);
      ContainsExtends(Join(Crlf, ConfigLines(guid)), Crlf, ConfigLines(guid)[k]);
      ContainsInside(s[..e], TestConfigBlock(guid), s[e..], ConfigLines(guid)[k]);
      ConfigLineUnanchored(guid, k);
      NestingKeeps(s3, guid, folder, ConfigLines(guid)[k]);
    }
  }

  /** Once both entries are written and an `EndGlobalSection` remains, the call's
      result is the last two steps applied to them. */
  lemma AddedAfterEntries(content: string, name: string, path: string, found: Option<string>, guid: string, folderGuid: string)
    requires WithTestEntries(content, name, path, found, guid, folderGuid).Returned?
    requires Contains(WithTestEntries(content, name, path, found, guid, folderGuid).value, EndGlobalSection)
    ensures WithTestConfig(WithTestEntries(content, name, path, found, guid, folderGuid).value, guid).Returned?
    ensures TestProjectAdded(content, name, path, found, guid, folderGuid) == Returned(WithTestNesting(
      WithTestConfig(WithTestEntries(content, name, path, found, guid, folderGuid).value, guid).value,
      guid, TestFolder(found, folderGuid)))
  {
  }

  /** Neither entry can overlap an `EndGlobalSection`. */
  lemma EntriesUnanchored(name: string, path: string, guid: string, folderGuid: string)
    requires Lacks(name, '\t') && Lacks(path, '\t') && Lacks(guid, '\t') && Lacks(folderGuid, '\t')
    ensures Unanchored(Entry(ProjectLine(CSharpProjectType, name, path, guid)), EndGlobalSection)
    ensures Unanchored(Entry(FolderLine("tests", folderGuid)), EndGlobalSection)
  {
    FixedPartsLackTabs();
    ProjectLineLacksTab(CSharpProjectType, name, path, guid);
    TablessUnanchored(Entry(ProjectLine(CSharpProjectType, name, path, guid)));
    ProjectLineLacksTab(SolutionFolderType, "tests", "tests", folderGuid);
    TablessUnanchored(Entry(FolderLine("tests", folderGuid)));
  }

  /** In a file whose first `Global` comes before its first `EndGlobalSection`, the
      call succeeds; the written text holds the project's entry, the tests folder's
      entry when the folder was missing, and the project's four configuration lines. */
  lemma TestProjectAddedLists(content: string, name: string, path: string, found: Option<string>, guid: string, folderGuid: string)
    requires Contains(content, EndGlobalSection)
    requires 0 <= IndexOf(content, GlobalKeyword) <= IndexOf(content, EndGlobalSection)
    requires Lacks(name, '\t') && Lacks(path, '\t') && PlainToken(guid) && PlainToken(folderGuid)
    ensures
      var r := TestProjectAdded(content, name, path, found, guid, folderGuid);
      && r.Returned?
      && Contains(r.value, Entry(ProjectLine(CSharpProjectType, name, path, guid)))
      && (found.None? ==> Contains(r.value, Entry(FolderLine("tests", folderGuid))))
      && ContainsAll(r.value, ConfigLines(guid))
  {
    var folder := TestFolder(found, folderGuid);
    TestEntriesWritten(content, name, path, found, guid, folderGuid);
    AddedAfterEntries(content, name, path, found, guid, folderGuid);
    var s2 := WithTestEntries(content, name, path, found, guid, folderGuid).value;
    EntriesUnanchored(name, path, guid, folderGuid);
    LastStepsKeep(s2, guid, folder, Entry(ProjectLine(CSharpProjectType, name, path, guid)));
    if found.None? {
      LastStepsKeep(s2, guid, folder, Entry(FolderLine("tests", folderGuid)));
    }
    LastStepsConfigure(s2, guid, folder);
  }

  /** The entry names the project after `= `, so the written file lists it and a
      second call for the same project leaves the file alone. */
  lemma TestProjectListedAfter(content: string, name: string, path: string, found: Option<string>, guid: string, folderGuid: string, fileName: string)
    requires Contains(content, EndGlobalSection)
    requires 0 <= IndexOf(content, GlobalKeyword) <= IndexOf(content, EndGlobalSection)
    requires Lacks(name, '\t') && Lacks(path, '\t') && PlainToken(guid) && PlainToken(folderGuid)
    ensures TestProjectAdded(content, name, path, found, guid, folderGuid).Returned?
    ensures AlreadyListed(TestProjectAdded(content, name, path, found, guid, folderGuid).value, name, fileName)
  {
    TestProjectAddedLists(content, name, path, found, guid, folderGuid);
    EntryNamesProject(CSharpProjectType, name, path, guid);
    ContainsTrans(TestProjectAdded(content, name, path, found, guid, folderGuid).value,
      Entry(ProjectLine(CSharpProjectType, name, path, guid)), "= \"" + name + "\"");
  }

  /** A project's entry holds `= "name"`. */
  lemma EntryNamesProject(typeId: string, name: string, path: string, guid: string)
    ensures Contains(Entry(ProjectLine(typeId, name, path, guid)), "= \"" + name + "\"")
  {
    var pre := "Project(\"" + typeId + "\") ";
    var t := "= \"" + name + "\"";
    var post := ", \"" + path + "\", \"{" + guid + "}\"" + Crlf + EndProject;
    assert Entry(ProjectLine(typeId, name, path, guid)) == pre + t + post;
    ContainsSelf(t);
    ContainsInside(pre, t, post, t);
  }

  /** The nesting step: without a `NestedProjects` section, a new one holding the line
      goes in front of the `EndGlobalSection`s; with one, the line goes in front of the
      first `EndGlobalSection` after the section's header; with one but no
      `EndGlobalSection` after it, the text is left as it is. */
  lemma TestNestingEffect(s: string, guid: string, folder: string)
    requires Contains(s, EndGlobalSection)
    ensures
      var n := IndexOf(s, NestedProjectsKeyword);
      && (n == -1 ==> Contains(WithTestNesting(s, guid, folder), NestedProjectsSection([NestingLine(guid, folder)])))
      && (n == -1 || IndexOfFrom(s, EndGlobalSection, n) != -1 ==> Contains(WithTestNesting(s, guid, folder), NestingLine(guid, folder)))
      && (n != -1 && IndexOfFrom(s, EndGlobalSection, n) == -1 ==> WithTestNesting(s, guid, folder) == s)
  {
    var line := NestingLine(guid, folder);
    var n := IndexOf(s, NestedProjectsKeyword);
    if n == -1 {
      var b := NestedProjectsSection([line]) + Crlf + EndGlobalSection;
      ReplaceInserts(s, EndGlobalSection, b);
      ContainsSelf(NestedProjectsSection([line]));
      ContainsExtends(NestedProjectsSection([line]), Crlf + EndGlobalSection, NestedProjectsSection([line]));
      assert NestedProjectsSection([line]) + (Crlf + EndGlobalSection) == b;
      ContainsTrans(WithTestNesting(s, guid, folder), b, NestedProjectsSection([line]));
      ContainsSelf(line);
      assert Join(Crlf, [line]) == line;
      NestedSectionContains([line], line);
      ContainsTrans(WithTestNesting(s, guid, folder), b, line);
    } else {
      var e := IndexOfFrom(s, EndGlobalSection, n);
      if e != -1 {
        ContainsSelf(line);
        ContainsExtends(line, Crlf, line);
        ContainsInside(s[..e], line + Crlf, s[e..], line);
      }
    }
  }

  // ---------------------------------------------------------------------------
  // The operation
  // ---------------------------------------------------------------------------

  /** The test project file's path relative to the solution's directory, with forward
      slashes. */
  function TestPath(paths: PathModel, solutionFile: string, testFile: string): string {
    NormalizeSeparators(paths.relative(paths.directoryName(solutionFile), testFile))
  }

  /** `AddTestProjectToSolutionAsync`: read the solution file, skip a project it already
      lists, otherwise write the text `TestProjectAdded` describes. `testsFolder` is the
      source's pattern match for an existing `tests` folder entry, returning the folder's
      GUID as it is written back. */
  method AddTestProjectToSolution(fs: FileSystem, paths: PathModel, solutionFile: string, testName: string,
                                  testFile: string, testsFolder: string -> Option<string>, guids: GuidSupply)
    returns (r: Outcome<()>, fs': FileSystem, guids': GuidSupply)
    ensures solutionFile !in fs ==> r == Threw(FileNotFound(solutionFile)) && fs' == fs && guids' == guids
    ensures solutionFile in fs && AlreadyListed(fs[solutionFile], testName, paths.fileName(testFile)) ==>
      r == Returned(()) && fs' == fs && guids' == guids
    ensures solutionFile in fs && !AlreadyListed(fs[solutionFile], testName, paths.fileName(testFile)) ==>
      var content := fs[solutionFile];
      var found := testsFolder(content);
      var added := TestProjectAdded(content, testName, TestPath(paths, solutionFile, testFile), found, guids.token(guids.next), guids.token(guids.next + 1));
      && (r.Threw? <==> added.Threw?)
      && (r.Threw? ==> r == Threw(added.exception) && fs' == fs)
      && (r.Returned? ==> fs' == fs[solutionFile := added.value])
      && guids' == guids.(next := guids.next + (if found.Some? then 1 else 2))
  {
    var read := ReadAllText(fs, solutionFile);
    if read.Threw? {
      return Threw(read.exception), fs, guids;
    }
    var content := read.value;
    if AlreadyListed(content, testName, paths.fileName(testFile)) {
      return Returned(()), fs, guids;
    }
    var written;
    written, guids' := TestProjectText(content, testName, TestPath(paths, solutionFile, testFile), testsFolder(content), guids);
    if written.Threw? {
      return Threw(written.exception), fs, guids';
    }
    fs' := fs[solutionFile := written.value];
    r := Returned(());
  }

  /** The body of `AddTestProjectToSolutionAsync` between the duplicate check and the
      write: the new text, or the exception, and the GUIDs drawn on the way. */
  method TestProjectText(content: string, name: string, path: string, found: Option<string>, guids: GuidSupply)
    returns (r: Outcome<string>, guids': GuidSupply)
    ensures r == TestProjectAdded(content, name, path, found, guids.token(guids.next), guids.token(guids.next + 1))
    ensures guids' == guids.(next := guids.next + (if found.Some? then 1 else 2))
  {
    var text := content;
    var guid;
    guid, guids' := NewGuid(guids).0, NewGuid(guids).1;
    var folder;
    if found.Some? {
      folder := found.value;
    } else {
      folder, guids' := NewGuid(guids').0, NewGuid(guids').1;
      var q := IndexOf(text, GlobalKeyword);
      if q == -1 {
        return Threw(ArgumentOutOfRange), guids';
      }
      text := Insert(text, q, TestsFolderBlock(folder));
    }
    var q := IndexOf(text, GlobalKeyword);
    if q == -1 {
      return Threw(InvalidOperation(MissingGlobal)), guids';
    }
    text := Insert(text, q, TestEntryBlock(name, path, guid));
    var e := LastIndexOf(text, EndGlobalSection);
    if e == -1 {
      return Threw(InvalidOperation(MissingEndGlobalSection)), guids';
    }
    text := Insert(text, e, TestConfigBlock(guid));
    text := AddTestNesting(text, guid, folder);
    r := Returned(text);
  }

  /** The nesting step of `AddTestProjectToSolutionAsync`, as the source writes it. */
  method AddTestNesting(content: string, guid: string, folder: string) returns (r: string)
    ensures r == WithTestNesting(content, guid, folder)
  {
    r := content;
    var n := IndexOf(r, NestedProjectsKeyword);
    if n != -1 {
      var e := IndexOfFrom(r, EndGlobalSection, n);
      if e != -1 {
        r := Insert(r, e, NestingLine(guid, folder) + Crlf);
      }
    } else {
      r := Replace(r, EndGlobalSection, NestedProjectsSection([NestingLine(guid, folder)]) + Crlf + EndGlobalSection);
    }
  }

  // ---------------------------------------------------------------------------
  // Finding: the first `Global` can sit inside a project's name
  // ---------------------------------------------------------------------------

  /** The text in front of a C# project's name on its entry line. */
  const NamePrefix := "Project(\"" + CSharpProjectType + "\") = \""

  /** As written, the search for `Global` finds the first occurrence anywhere. When a
      project's name starts with `Global` (a solution called `GlobalShop`, whose projects
      are `GlobalShop.Domain` and so on) and nothing in front of its entry holds a `G`,
      the test project's entry goes into the middle of that project's line, which then
      no longer stands where it stood. */
  lemma TestEntrySplitsGlobalNamedProject(before: string, name: string, path: string, guid: string, rest: string,
                                          testName: string, testPath: string, testGuid: string)
    requires Lacks(before, 'G') && StartsWith(name, GlobalKeyword)
    ensures
      var content := before + Entry(ProjectLine(CSharpProjectType, name, path, guid)) + rest;
      && IndexOf(content, GlobalKeyword) == |before| + |NamePrefix|
      && WithTestEntry(content, testName, testPath, testGuid).Returned?
      && !OccursAt(WithTestEntry(content, testName, testPath, testGuid).value, ProjectLine(CSharpProjectType, name, path, guid), |before|)
  {
    var content := before + Entry(ProjectLine(CSharpProjectType, name, path, guid)) + rest;
    var tail := EntrySplitsAtName(before, name, path, guid, rest);
    assert Lacks(NamePrefix, 'G');
    LacksConcat(before, NamePrefix, 'G');
    IndexOfAfterPrefix(before + NamePrefix, tail, GlobalKeyword);
    var r := Insert(content, |before| + |NamePrefix|, TestEntryBlock(testName, testPath, testGuid));
    assert r[|before| + |NamePrefix|] == 'P';
  }

  /** A project's entry is the fixed text up to the name, then the text from the name
      on; a name starting with `Global` makes that text start with it too. */
  lemma EntrySplitsAtName(before: string, name: string, path: string, guid: string, rest: string) returns (tail: string)
    requires StartsWith(name, GlobalKeyword)
    ensures before + Entry(ProjectLine(CSharpProjectType, name, path, guid)) + rest == (before + NamePrefix) + tail
    ensures StartsWith(tail, GlobalKeyword)
    ensures |NamePrefix| < |ProjectLine(CSharpProjectType, name, path, guid)|
    ensures ProjectLine(CSharpProjectType, name, path, guid)[|NamePrefix|] == 'G'
  {
    tail := name + "\", \"" + path + "\", \"{" + guid + "}\"" + Crlf + EndProject + rest;
    assert ProjectLine(CSharpProjectType, name, path, guid) == NamePrefix + (name + "\", \"" + path + "\", \"{" + guid + "}\"");
    assert tail[..|GlobalKeyword|] == name[..|GlobalKeyword|];
  }

  /** A `Global` right after a line break is an occurrence of the line break and `Global`. */
  lemma GlobalAfterNewline(s: string, p: int)
    requires 0 < p && OccursAt(s, GlobalKeyword, p) && s[p - 1] == '\n'
    ensures OccursAt(s, "\n" + GlobalKeyword, p - 1)
  {
    assert s[p - 1..p + |GlobalKeyword|] == [s[p - 1]] + s[p..p + |GlobalKeyword|];
  }

  /** The position of the first `Global` that starts a line, or -1. */
  function GlobalLineIndex(s: string): (r: int)
    ensures r == -1 || (OccursAt(s, GlobalKeyword, r) && (r == 0 || s[r - 1] == '\n'))
    ensures r == -1 <==> forall p :: 0 <= p <= |s| && OccursAt(s, GlobalKeyword, p) ==> 0 < p && s[p - 1] != '\n'
    ensures r != -1 ==> forall p :: 0 <= p < r && OccursAt(s, GlobalKeyword, p) ==> 0 < p && s[p - 1] != '\n'
  {
    if StartsWith(s, GlobalKeyword) then
      assert OccursAt(s, GlobalKeyword, 0);
      0
    else
      var i := IndexOf(s, "\n" + GlobalKeyword);
      if i == -1 then
        assert forall p :: 0 < p <= |s| && OccursAt(s, GlobalKeyword, p) && s[p - 1] == '\n' ==> OccursAt(s, "\n" + GlobalKeyword, p - 1) by {
          forall p | 0 < p <= |s| && OccursAt(s, GlobalKeyword, p) && s[p - 1] == '\n' ensures OccursAt(s, "\n" + GlobalKeyword, p - 1) {
            GlobalAfterNewline(s, p);
          }
        }
        -1
      else
        assert s[i + 1..i + 1 + |GlobalKeyword|] == (s[i..i + 1 + |GlobalKeyword|])[1..];
        assert forall p :: 0 < p <= i && OccursAt(s, GlobalKeyword, p) && s[p - 1] == '\n' ==> OccursAt(s, "\n" + GlobalKeyword, p - 1) by {
          forall p | 0 < p <= i && OccursAt(s, GlobalKeyword, p) && s[p - 1] == '\n' ensures OccursAt(s, "\n" + GlobalKeyword, p - 1) {
            GlobalAfterNewline(s, p);
          }
        }
        i + 1
  }

  /** The corrected entry step: the entry goes in front of the first line that starts
      with `Global`. */
  function WithTestEntryAtLine(s: string, name: string, path: string, guid: string): Outcome<string> {
    var q := GlobalLineIndex(s);
    if q == -1 then Threw(InvalidOperation(MissingGlobal)) else Returned(Insert(s, q, TestEntryBlock(name, path, guid)))
  }

  /** The corrected step splits no line: every text without a line break that the file
      holds, it still holds. */
  lemma EntryAtLineKeepsLines(s: string, name: string, path: string, guid: string, t: string, i: nat)
    requires GlobalLineIndex(s) != -1 && OccursAt(s, t, i) && Lacks(t, '\n')
    ensures WithTestEntryAtLine(s, name, path, guid).Returned?
    ensures Contains(WithTestEntryAtLine(s, name, path, guid).value, t)
  {
    var q := GlobalLineIndex(s);
    InsertKeepsOccurrence(s, q, TestEntryBlock(name, path, guid), t, i);
  }

  /** On the file of `TestEntrySplitsGlobalNamedProject`, the corrected step leaves the
      project's line where it stood, given a line that starts with `Global`. */
  lemma EntryAtLineKeepsGlobalNamedProject(before: string, name: string, path: string, guid: string, rest: string,
                                           testName: string, testPath: string, testGuid: string)
    requires Lacks(before, 'G') && Lacks(name, '\n') && Lacks(path, '\n') && Lacks(guid, '\n')
    requires GlobalLineIndex(before + Entry(ProjectLine(CSharpProjectType, name, path, guid)) + rest) != -1
    ensures
      var content := before + Entry(ProjectLine(CSharpProjectType, name, path, guid)) + rest;
      && WithTestEntryAtLine(content, testName, testPath, testGuid).Returned?
      && OccursAt(WithTestEntryAtLine(content, testName, testPath, testGuid).value, ProjectLine(CSharpProjectType, name, path, guid), |before|)
  {
    var line := ProjectLine(CSharpProjectType, name, path, guid);
    var content := before + Entry(line) + rest;
    ProjectLineLacks(CSharpProjectType, name, path, guid, '\n');
    assert content[..|before|] == before;
    assert content[|before|..|before| + |line|] == line;
    LineKept(content, before, line, TestEntryBlock(testName, testPath, testGuid));
  }

  /** Inserting at the first line that starts with `Global` keeps a line that does not
      start with `Global` and has no `G` in front of it. */
  lemma LineKept(content: string, before: string, line: string, x: string)
    requires GlobalLineIndex(content) != -1
    requires |before| <= |content| && content[..|before|] == before && Lacks(before, 'G')
    requires OccursAt(content, line, |before|) && Lacks(line, '\n') && |line| > 0 && line[0] != 'G'
    ensures OccursAt(Insert(content, GlobalLineIndex(content), x), line, |before|)
  {
    var q := GlobalLineIndex(content);
    GlobalLinePastLine(content, before, line);
    var r := Insert(content, q, x);
    InsertLayout(content, q, x);
    assert r[|before|..|before| + |line|] == content[|before|..|before| + |line|];
  }

  /** The first line starting with `Global` comes after a `G`-free prefix and a line
      that does not start with `G`. */
  lemma GlobalLinePastLine(content: string, before: string, line: string)
    requires GlobalLineIndex(content) != -1
    requires |before| <= |content| && content[..|before|] == before && Lacks(before, 'G')
    requires OccursAt(content, line, |before|) && Lacks(line, '\n') && |line| > 0 && line[0] != 'G'
    ensures GlobalLineIndex(content) >= |before| + |line|
  {
    var q := GlobalLineIndex(content);
    assert content[q] == 'G' by {
      assert content[q..q + |GlobalKeyword|][0] == content[q];
    }
    assert forall k :: 0 <= k < |before| ==> content[k] == before[k] by {
      forall k | 0 <= k < |before| ensures content[k] == before[k] {
        assert content[..|before|][k] == content[k];
      }
    }
    assert forall k :: |before| <= k < |before| + |line| ==> content[k] == line[k - |before|] by {
      forall k | |before| <= k < |before| + |line| ensures content[k] == line[k - |before|] {
        assert content[|before|..|before| + |line|][k - |before|] == content[k];
      }
    }
  }
}

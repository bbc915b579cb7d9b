/** The small pieces of the solution generator that only compute: the initial solution
    file, the per-layer folder list, the boilerplate-file filter, the Entity Framework
    package insertion, the project order and the README layer descriptions. */
module SolutionGenerator {
  import opened Outcomes
  import opened Models
  import opened Text
  import opened Environment

  // ---------------------------------------------------------------------------
  // The initial .sln file
  // ---------------------------------------------------------------------------

  /** The four header lines; no capital G occurs in them. The first line is written
      in three pieces only so that the prover can check them character by character. */
  const TemplateHeader: string :=
    "Microsoft Visual Studio " + "Solution File, " + "Format Version 12.00\n"
    + "# Visual Studio Version 17\n"
    + "VisualStudioVersion = 17.0.31903.59\n"
    + "MinimumVisualStudioVersion = 10.0.40219.1\n"

  const EndGlobalSection: string := "\tEndGlobalSection"

  const SolutionConfigurationSection: string :=
    "\tGlobalSection(SolutionConfigurationPlatforms) = preSolution\n"
    + "\t\tDebug|Any CPU = Debug|Any CPU\n"
    + "\t\tRelease|Any CPU = Release|Any CPU\n"
    + EndGlobalSection + "\n"

  /** The section that is meant to receive each project's build configurations. */
  const ProjectConfigurationSection: string :=
    "\tGlobalSection(ProjectConfigurationPlatforms) = postSolution\n"
    + EndGlobalSection + "\n"

  const SolutionPropertiesSection: string :=
    "\tGlobalSection(SolutionProperties) = preSolution\n"
    + "\t\tHideSolutionNode = FALSE\n"
    + EndGlobalSection + "\n"

  /** The text `CreateSolutionFileAsync` writes: a solution with no projects, whose
      `Global` block has three sections, each closed by a tab-indented
      `EndGlobalSection`. */
  const SolutionTemplate: string := TemplateHeader + GlobalBlock

  const GlobalBlock: string := "Global\n" + GlobalSections

  const GlobalSections: string :=
    SolutionConfigurationSection + ProjectConfigurationSection + SolutionPropertiesSection + "EndGlobal\n"

  /** The first `Global` of the template is the line that opens the global block, so
      the project block the generator inserts there lands after the header and before
      every section. */
  lemma SolutionTemplateGlobal()
    ensures IndexOf(SolutionTemplate, "Global") == |TemplateHeader|
    ensures StartsWith(SolutionTemplate[|TemplateHeader|..], "Global\n")
  {
    assert SolutionTemplate[|TemplateHeader|..] == GlobalBlock;
    HeaderHasNoCapitalG();
    assert StartsWith("Global\n", "Global");
    StartsWithConcat("Global\n", GlobalSections, "Global");
    StartsWithConcat("Global\n", GlobalSections, "Global\n");
    IndexOfAfterPrefix(TemplateHeader, GlobalBlock, "Global");
  }

  /** No line of the header has a capital G. */
  lemma HeaderHasNoCapitalG()
    ensures Lacks(TemplateHeader, 'G')
  {
    var a1, a2, a3 := "Microsoft Visual Studio ", "Solution File, ", "Format Version 12.00\n";
    var b, c, d := "# Visual Studio Version 17\n", "VisualStudioVersion = 17.0.31903.59\n", "MinimumVisualStudioVersion = 10.0.40219.1\n";
    assert Lacks(a1, 'G') && Lacks(a2, 'G') && Lacks(a3, 'G');
    assert Lacks(b, 'G');
    assert Lacks(c, 'G');
    assert Lacks(d, 'G');
    LacksConcat(a1, a2, 'G');
    LacksConcat(a1 + a2, a3, 'G');
    LacksConcat(a1 + a2 + a3, b, 'G');
    LacksConcat(a1 + a2 + a3 + b, c, 'G');
    LacksConcat(a1 + a2 + a3 + b + c, d, 'G');
  }

  /** The template has an `EndGlobalSection` in its project-configuration section to
      anchor configuration lines on, and ends with the `EndGlobal` line. */
  lemma SolutionTemplateSections()
    ensures Contains(SolutionTemplate, ProjectConfigurationSection)
    ensures Contains(ProjectConfigurationSection, EndGlobalSection)
    ensures Contains(SolutionTemplate, EndGlobalSection)
    ensures EndsWith(SolutionTemplate, "EndGlobal\n")
  {
    var scs, pcs, sps := SolutionConfigurationSection, ProjectConfigurationSection, SolutionPropertiesSection;
    ContainsSelf(pcs);
    ContainsInside(scs, pcs, sps, pcs);
    ContainsExtends(scs + pcs + sps, "EndGlobal\n", pcs);
    ContainsPrepends("Global\n", GlobalSections, pcs);
    ContainsPrepends(TemplateHeader, GlobalBlock, pcs);
    ContainsSelf(EndGlobalSection);
    ContainsInside("\tGlobalSection(ProjectConfigurationPlatforms) = postSolution\n", EndGlobalSection, "\n", EndGlobalSection);
    ContainsTrans(SolutionTemplate, pcs, EndGlobalSection);
    assert EndsWith(scs + pcs + sps + "EndGlobal\n", "EndGlobal\n");
    EndsWithPrepend("Global\n", GlobalSections, "EndGlobal\n");
    EndsWithPrepend(TemplateHeader, GlobalBlock, "EndGlobal\n");
  }


  // ---------------------------------------------------------------------------
  // Folders of a layer (gRPC rename)
  // ---------------------------------------------------------------------------

  /** `CreateFolderStructureAsync`'s folder list: the definition's folders, except that
      a gRPC API project gets `Services` wherever a folder name says `Controllers`.
      Only the API project under gRPC is touched, only folder names that mention
      `Controllers` change, and each of those then mentions `Services`. */
  function FoldersToCreate(definition: LayerDefinition, apiType: ApiType): (r: seq<string>)
    ensures |r| == |definition.folders|
    ensures !(definition.layerType == API && apiType == gRPC) ==> r == definition.folders
    ensures forall i :: 0 <= i < |r| && !Contains(definition.folders[i], "Controllers") ==> r[i] == definition.folders[i]
    ensures forall i :: 0 <= i < |r| && Contains(definition.folders[i], "Controllers") && definition.layerType == API && apiType == gRPC ==>
      Contains(r[i], "Services")
  {
    if definition.layerType == API && apiType == gRPC then
      var folders := definition.folders;
      assert forall i :: 0 <= i < |folders| ==>
        && (!Contains(folders[i], "Controllers") ==> Replace(folders[i], "Controllers", "Services") == folders[i])
        && (Contains(folders[i], "Controllers") ==> Contains(Replace(folders[i], "Controllers", "Services"), "Services"))
      by {
        forall i | 0 <= i < |folders|
          ensures !Contains(folders[i], "Controllers") ==> Replace(folders[i], "Controllers", "Services") == folders[i]
          ensures Contains(folders[i], "Controllers") ==> Contains(Replace(folders[i], "Controllers", "Services"), "Services")
        {
          if Contains(folders[i], "Controllers") {
            ReplaceInserts(folders[i], "Controllers", "Services");
          } else {
            ReplaceAbsent(folders[i], "Controllers", "Services");
          }
        }
      }
      seq(|folders|, i requires 0 <= i < |folders| => Replace(folders[i], "Controllers", "Services"))
    else definition.folders
  }

  // ---------------------------------------------------------------------------
  // Boilerplate files
  // ---------------------------------------------------------------------------

  /** The filter `RemoveBoilerplateFilesAsync` applies to a top-level `.cs` file's name:
      template class files always go; `Program` files go except in the API project,
      whose entry point they are. */
  function IsBoilerplate(fileName: string, layer: LayerType): (r: bool)
    ensures StartsWith(fileName, "Class") ==> r
    ensures r ==> StartsWith(fileName, "Class") || StartsWith(fileName, "Program")
    ensures layer == API && r ==> StartsWith(fileName, "Class")
    ensures layer != API && StartsWith(fileName, "Program") ==> r
  {
    if StartsWith(fileName, "Class") then true
    else if StartsWith(fileName, "Program") then layer != API
    else false
  }

  /** The files to delete, in listing order. */
  function BoilerplateFiles(paths: PathModel, files: seq<string>, layer: LayerType): (r: seq<string>)
    ensures forall f :: f in r <==> f in files && IsBoilerplate(paths.fileName(f), layer)
    ensures |r| <= |files|
  {
    if files == [] then []
    else if IsBoilerplate(paths.fileName(files[0]), layer) then [files[0]] + BoilerplateFiles(paths, files[1..], layer)
    else BoilerplateFiles(paths, files[1..], layer)
  }

  /** The filter on the names the templates produce: `Class1.cs` goes from every
      project, `Program.cs` from every project but the API one, other files stay. */
  lemma BoilerplateExamples(layer: LayerType)
    ensures IsBoilerplate("Class1.cs", layer)
    ensures IsBoilerplate("Program.cs", layer) <==> layer != API
    ensures !IsBoilerplate("ApplicationDbContext.cs", layer)
  {
    assert "Class1.cs"[..5] == "Class";
    assert "Program.cs"[..7] == "Program";
    assert "Program.cs"[..5][0] != "Class"[0];
    assert "ApplicationDbContext.cs"[..5] != "Class";
    assert "ApplicationDbContext.cs"[..7][0] != "Program"[0];
  }

  /** `RemoveBoilerplateFilesAsync`: `files` is what `Directory.GetFiles(projectPath,
      "*.cs", TopDirectoryOnly)` listed. Deleting a file that is already gone does
      nothing, as `File.Delete` does. */
  method RemoveBoilerplateFiles(fs: FileSystem, paths: PathModel, files: seq<string>, layer: LayerType)
    returns (fs': FileSystem, removed: nat)
    ensures removed == |BoilerplateFiles(paths, files, layer)|
    ensures forall p :: p in fs' <==> p in fs && !(p in files && IsBoilerplate(paths.fileName(p), layer))
    ensures forall p :: p in fs' ==> fs'[p] == fs[p]
  {
    var boilerplate := BoilerplateFiles(paths, files, layer);
    fs' := fs;
    var i := 0;
    while i < |boilerplate|
      invariant 0 <= i <= |boilerplate|
      invariant forall p :: p in fs' <==> p in fs && p !in boilerplate[..i]
      invariant forall p :: p in fs' ==> fs'[p] == fs[p]
    {
      assert boilerplate[..i + 1] == boilerplate[..i] + [boilerplate[i]];
      fs' := fs' - {boilerplate[i]};
      i := i + 1;
    }
    assert boilerplate[..i] == boilerplate;
    removed := |boilerplate|;
  }

  // ---------------------------------------------------------------------------
  // Entity Framework packages
  // ---------------------------------------------------------------------------

  const EfCorePackage := "Microsoft.EntityFrameworkCore"
  const PropertyGroupEnd := "  </PropertyGroup>"
  const PackageReferenceStart := "    <PackageReference Include=\""

  /** One package reference line, at version 9.0.0. */
  function PackageReference(name: string): string {
    PackageReferenceStart + name + "\" Version=\"9.0.0\" />\r\n"
  }

  const EfCorePackageReferences :=
    PackageReference(EfCorePackage) + PackageReference(EfCorePackage + ".SqlServer")
  const EfCoreItemGroup := PropertyGroupEnd + "\r\n\r\n  <ItemGroup>\r\n" + EfCorePackageReferences + "  </ItemGroup>"

  /** The package step of `CreateEFCorePlaceholdersAsync`: unless the project file
      already mentions Entity Framework Core, an item group with the two package
      references follows every `  </PropertyGroup>`. */
  function AddEfCorePackages(content: string): (r: string)
    ensures Contains(content, EfCorePackage) ==> r == content
    ensures !Contains(content, PropertyGroupEnd) ==> r == content
    ensures r != content ==> Contains(content, PropertyGroupEnd) && !Contains(content, EfCorePackage)
  {
    if !Contains(content, EfCorePackage) then
      assert !Contains(content, PropertyGroupEnd) ==> Replace(content, PropertyGroupEnd, EfCoreItemGroup) == content by {
        if !Contains(content, PropertyGroupEnd) {
          ReplaceAbsent(content, PropertyGroupEnd, EfCoreItemGroup);
        }
      }
      Replace(content, PropertyGroupEnd, EfCoreItemGroup)
    else content
  }

  /** After the step the project references both packages (when it has a property
      group to anchor on), and running the step again changes nothing. */
  lemma EfCorePackagesAdded(content: string)
    ensures Contains(content, PropertyGroupEnd) && !Contains(content, EfCorePackage) ==>
      Contains(AddEfCorePackages(content), EfCorePackageReferences)
    ensures Contains(content, PropertyGroupEnd) ==> Contains(AddEfCorePackages(content), EfCorePackage)
    ensures !Contains(content, PropertyGroupEnd) ==> AddEfCorePackages(content) == content
    ensures AddEfCorePackages(AddEfCorePackages(content)) == AddEfCorePackages(content)
  {
    var r := AddEfCorePackages(content);
    if Contains(content, EfCorePackage) {
    } else if Contains(content, PropertyGroupEnd) {
      ReplaceInserts(content, PropertyGroupEnd, EfCoreItemGroup);
      var pre := PropertyGroupEnd + "\r\n\r\n  <ItemGroup>\r\n";
      assert EfCoreItemGroup == pre + EfCorePackageReferences + "  </ItemGroup>";
      var line := PackageReference(EfCorePackage);
      assert OccursAt(line, EfCorePackage, |PackageReferenceStart|) by {
        assert line[|PackageReferenceStart|..|PackageReferenceStart| + |EfCorePackage|] == EfCorePackage;
      }
      assert OccursAt(EfCorePackageReferences, EfCorePackage, |PackageReferenceStart|) by {
        assert EfCorePackageReferences[..|line|] == line;
      }
      ContainsInside(pre, EfCorePackageReferences, "  </ItemGroup>", EfCorePackage);
      ContainsTrans(r, EfCoreItemGroup, EfCorePackage);
      assert OccursAt(EfCoreItemGroup, EfCorePackageReferences, |pre|);
      ContainsTrans(r, EfCoreItemGroup, EfCorePackageReferences);
    } else {
      ReplaceAbsent(content, PropertyGroupEnd, EfCoreItemGroup);
    }
  }

  // ---------------------------------------------------------------------------
  // Project order
  // ---------------------------------------------------------------------------

  /** A dictionary from layer to project directory, in insertion order. */
  type ProjectPaths = seq<(LayerType, string)>

  /** Dictionary keys are unique. */
  predicate DistinctKeys(pp: ProjectPaths) {
    forall i, j :: 0 <= i < j < |pp| ==> pp[i].0 != pp[j].0
  }

  /** `projectPaths[layer]`, which throws for a missing key. */
  function Lookup(pp: ProjectPaths, layer: LayerType): (r: Outcome<string>)
    ensures r.Returned? <==> exists i :: 0 <= i < |pp| && pp[i].0 == layer
    ensures r.Returned? ==> exists i :: 0 <= i < |pp| && pp[i] == (layer, r.value)
    ensures r.Threw? ==> r.exception == KeyNotFound
  {
    if pp == [] then Threw(KeyNotFound)
    else if pp[0].0 == layer then Returned(pp[0].1)
    else Lookup(pp[1..], layer)
  }

  /** The sort key of `AddProjectsToSolutionAsync`: SharedKernel, Domain, Application,
      Infrastructure, then everything else. */
  function Rank(layer: LayerType): nat {
    if layer == SharedKernel then 0
    else if layer == Domain then 1
    else if layer == Application then 2
    else if layer == Infrastructure then 3
    else 4
  }

  /** The rank is the enum's declaration order, so no two layers share a rank. */
  lemma RankIsDeclarationOrder(l: LayerType, m: LayerType)
    ensures Rank(l) == Ordinal(l)
    ensures Rank(l) == Rank(m) ==> l == m
  {
  }

  /** Non-decreasing ranks. */
  predicate SortedByRank(s: ProjectPaths) {
    forall i, j :: 0 <= i < j < |s| ==> Rank(s[i].0) <= Rank(s[j].0)
  }

  /** Put `x` before the first element whose rank is not below its own. */
  function InsertByRank(x: (LayerType, string), s: ProjectPaths): (r: ProjectPaths)
    requires SortedByRank(s)
    ensures SortedByRank(r)
    ensures multiset(r) == multiset(s) + multiset{x}
    ensures r[0] == x || (s != [] && r[0] == s[0])
  {
    if s == [] || Rank(x.0) <= Rank(s[0].0) then [x] + s
    else
      var rest := InsertByRank(x, s[1..]);
      assert multiset(s) == multiset{s[0]} + multiset(s[1..]) by {
        assert s == [s[0]] + s[1..];
      }
      RanksFromHead(x, s, rest);
      SortedCons(s[0], rest);
      [s[0]] + rest
  }

  /** What `x` and the tail of a sorted `s` are rearranged into ranks no lower than the
      head of `s`, when `x` ranks above it. */
  lemma RanksFromHead(x: (LayerType, string), s: ProjectPaths, rest: ProjectPaths)
    requires SortedByRank(s) && s != [] && Rank(s[0].0) < Rank(x.0)
    requires multiset(rest) == multiset(s[1..]) + multiset{x}
    ensures forall k :: 0 <= k < |rest| ==> Rank(s[0].0) <= Rank(rest[k].0)
  {
    forall k | 0 <= k < |rest| ensures Rank(s[0].0) <= Rank(rest[k].0) {
      assert rest[k] in multiset(rest);
      if rest[k] != x {
        assert rest[k] in multiset(s[1..]);
        var m :| 0 <= m < |s[1..]| && s[1..][m] == rest[k];
        assert s[m + 1] == rest[k];
      }
    }
  }

  /** An entry ranked no higher than a sorted sequence can go in front of it. */
  lemma SortedCons(y: (LayerType, string), rest: ProjectPaths)
    requires SortedByRank(rest)
    requires forall k :: 0 <= k < |rest| ==> Rank(y.0) <= Rank(rest[k].0)
    ensures SortedByRank([y] + rest)
  {
    var r := [y] + rest;
    forall i, j | 0 <= i < j < |r| ensures Rank(r[i].0) <= Rank(r[j].0) {
      if i > 0 {
        assert r[i] == rest[i - 1] && r[j] == rest[j - 1];
      } else {
        assert r[j] == rest[j - 1];
      }
    }
  }

  /** `projectPaths.OrderBy(rank)`: a stable sort by rank. */
  function OrderByRank(pp: ProjectPaths): (r: ProjectPaths)
    ensures SortedByRank(r)
    ensures multiset(r) == multiset(pp)
    decreases |pp|
  {
    if pp == [] then []
    else
      assert pp == [pp[0]] + pp[1..];
      InsertByRank(pp[0], OrderByRank(pp[1..]))
  }

  /** Inserting an entry whose key is new keeps the keys unique. */
  lemma {:induction false} InsertByRankKeepsKeysDistinct(x: (LayerType, string), s: ProjectPaths)
    requires SortedByRank(s) && DistinctKeys(s)
    requires forall i :: 0 <= i < |s| ==> s[i].0 != x.0
    ensures DistinctKeys(InsertByRank(x, s))
    decreases |s|
  {
    if s != [] && Rank(x.0) > Rank(s[0].0) {
      TailKeepsOrder(s);
      InsertByRankKeepsKeysDistinct(x, s[1..]);
      var rest := InsertByRank(x, s[1..]);
      forall j | 0 <= j < |rest| ensures rest[j].0 != s[0].0 {
        assert rest[j] in multiset(rest);
        if rest[j] != x {
          assert rest[j] in multiset(s[1..]);
          var m :| 0 <= m < |s[1..]| && s[1..][m] == rest[j];
          assert s[m + 1] == rest[j];
        }
      }
      KeysDistinctCons(s[0], rest);
    } else {
      KeysDistinctCons(x, s);
    }
  }

  /** An entry whose key no later entry has can go in front of a list with unique keys. */
  lemma KeysDistinctCons(y: (LayerType, string), rest: ProjectPaths)
    requires DistinctKeys(rest) && forall j :: 0 <= j < |rest| ==> rest[j].0 != y.0
    ensures DistinctKeys([y] + rest)
  {
    var r := [y] + rest;
    forall i, j | 0 <= i < j < |r| ensures r[i].0 != r[j].0 {
      assert r[j] == rest[j - 1];
      if i > 0 {
        assert r[i] == rest[i - 1];
      }
    }
  }

  /** The sort keeps the dictionary's keys unique. */
  lemma {:induction false} OrderByRankKeepsKeysDistinct(pp: ProjectPaths)
    requires DistinctKeys(pp)
    ensures DistinctKeys(OrderByRank(pp))
    decreases |pp|
  {
    if pp != [] {
      OrderByRankKeepsKeysDistinct(pp[1..]);
      var rest := OrderByRank(pp[1..]);
      forall i | 0 <= i < |rest| ensures rest[i].0 != pp[0].0 {
        assert rest[i] in multiset(pp[1..]) by { assert rest[i] in multiset(rest); }
      }
      InsertByRankKeepsKeysDistinct(pp[0], rest);
    }
  }

  /** Two rank-sorted lists with unique keys and the same entries are the same list. */
  lemma {:induction false} SortedArrangementIsUnique(s: ProjectPaths, t: ProjectPaths)
    requires SortedByRank(s) && SortedByRank(t) && DistinctKeys(s) && DistinctKeys(t)
    requires |s| == |t| && forall e :: e in s <==> e in t
    ensures s == t
    decreases |s|
  {
    if s != [] {
      SortedHeadsAgree(s, t);
      TailMembers(s);
      TailMembers(t);
      TailKeepsOrder(s);
      TailKeepsOrder(t);
      SortedArrangementIsUnique(s[1..], t[1..]);
      assert s == [s[0]] + s[1..] && t == [t[0]] + t[1..];
    }
  }

  /** Two such lists start with the same entry. */
  lemma SortedHeadsAgree(s: ProjectPaths, t: ProjectPaths)
    requires SortedByRank(s) && SortedByRank(t) && DistinctKeys(s)
    requires s != [] && |s| == |t| && forall e :: e in s <==> e in t
    ensures s[0] == t[0]
  {
    assert s[0] in t && t[0] in s;
    var i :| 0 <= i < |t| && t[i] == s[0];
    var j :| 0 <= j < |s| && s[j] == t[0];
    assert i == 0 || Rank(t[0].0) <= Rank(t[i].0);
    assert j == 0 || Rank(s[0].0) <= Rank(s[j].0);
    RankIsDeclarationOrder(s[0].0, s[j].0);
    assert s[j].0 == s[0].0;
    assert j == 0;
  }

  /** The tail of a sorted list with unique keys is one too. */
  lemma TailKeepsOrder(s: ProjectPaths)
    requires s != [] && SortedByRank(s) && DistinctKeys(s)
    ensures SortedByRank(s[1..]) && DistinctKeys(s[1..])
  {
    var u := s[1..];
    forall i, j | 0 <= i < j < |u| ensures Rank(u[i].0) <= Rank(u[j].0) && u[i].0 != u[j].0 {
      assert u[i] == s[i + 1] && u[j] == s[j + 1];
    }
  }

  /** With unique keys, the tail holds every entry but the head. */
  lemma TailMembers(s: ProjectPaths)
    requires s != [] && DistinctKeys(s)
    ensures forall e :: e in s[1..] <==> e in s && e != s[0]
  {
    forall e ensures e in s[1..] <==> e in s && e != s[0] {
      if e in s[1..] {
        var k :| 0 <= k < |s[1..]| && s[1..][k] == e;
        assert s[k + 1] == e;
      }
      assert s == [s[0]] + s[1..];
    }
  }

  /** The order the projects are processed in depends only on which layers have
      projects, not on the order the dictionary was filled in. */
  lemma OrderByRankIgnoresInsertionOrder(p: ProjectPaths, q: ProjectPaths)
    requires DistinctKeys(p) && DistinctKeys(q)
    requires multiset(p) == multiset(q)
    ensures OrderByRank(p) == OrderByRank(q)
  {
    OrderByRankKeepsKeysDistinct(p);
    OrderByRankKeepsKeysDistinct(q);
    var s, t := OrderByRank(p), OrderByRank(q);
    forall e ensures e in s <==> e in t {
      assert e in s <==> e in multiset(s);
      assert e in t <==> e in multiset(t);
    }
    assert |s| == |t| by { assert |multiset(s)| == |multiset(t)|; }
    SortedArrangementIsUnique(s, t);
  }

  /** With unique keys the projects come out in strictly ascending layer order:
      SharedKernel, Domain, Application, Infrastructure, API, each at most once. */
  lemma OrderByRankAscends(pp: ProjectPaths)
    requires DistinctKeys(pp)
    ensures forall i, j :: 0 <= i < j < |OrderByRank(pp)| ==> Ordinal(OrderByRank(pp)[i].0) < Ordinal(OrderByRank(pp)[j].0)
  {
    var r := OrderByRank(pp);
    OrderByRankKeepsKeysDistinct(pp);
    forall i, j | 0 <= i < j < |r| ensures Ordinal(r[i].0) < Ordinal(r[j].0) {
      RankIsDeclarationOrder(r[i].0, r[j].0);
      RankIsDeclarationOrder(r[j].0, r[i].0);
    }
  }

  // ---------------------------------------------------------------------------
  // README descriptions
  // ---------------------------------------------------------------------------

  /** `GetLayerDescription`: the sentence the README gives each layer. Each sentence
      is written as its first word followed by the rest, so that the prover reads its
      first letter without unfolding the whole literal. */
  function GetLayerDescription(layer: LayerType): string {
    match layer
    case SharedKernel => "Shared" + " domain concepts, entities, value objects, enums, constants, and common abstractions (DDD Shared Kernel pattern). Contains reusable domain elements shared across bounded contexts."
    case Domain => "Core" + " business logic, entities, and domain rules"
    case Application => "Use" + " cases, interfaces, and application services"
    case Infrastructure => "Data" + " access, external services, and infrastructure implementations"
    case API => "Web" + " API controllers, middleware, and HTTP concerns"
  }

  /** Every layer has its own non-empty description. */
  lemma LayerDescriptionsDistinct(l: LayerType, m: LayerType)
    ensures |GetLayerDescription(l)| > 0
    ensures GetLayerDescription(l) == GetLayerDescription(m) ==> l == m
  {
    var d, e := GetLayerDescription(l), GetLayerDescription(m);
    DescriptionInitial(l);
    DescriptionInitial(m);
    if d == e {
      assert Initial(l) == Initial(m);
      InitialsDistinct(l, m);
    }
  }

  lemma InitialsDistinct(l: LayerType, m: LayerType)
    ensures Initial(l) == Initial(m) ==> l == m
  {
  }

  /** Each description starts with its own letter. */
  lemma DescriptionInitial(l: LayerType)
    ensures |GetLayerDescription(l)| > 0
    ensures GetLayerDescription(l)[0] == Initial(l)
  {
    match l
    case SharedKernel =>
    case Domain =>
    case Application =>
    case Infrastructure =>
    case API =>
  }

  /** The first letter of each layer's description. */
  function Initial(l: LayerType): char {
    match l
    case SharedKernel => 'S'
    case Domain => 'C'
    case Application => 'U'
    case Infrastructure => 'D'
    case API => 'W'
  }
}

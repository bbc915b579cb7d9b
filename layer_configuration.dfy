/** The built-in layer table: for each generated layer, its project template, its
    folders, whether it is mandatory and the layers it references. */
module LayerConfiguration {
  import opened Models
  import opened Outcomes
  import opened InputValidator
  import opened DependencyValidator

  const DomainFolders: seq<string> :=
    ["Entities", "ValueObjects", "Aggregates", "Specifications", "DomainServices", "DomainEvents", "Exceptions", "Common"]

  const ApplicationFolders: seq<string> :=
    ["UseCases", "Interfaces", "DTOs", "Validators", "Mappings", "Common"]

  const InfrastructureFolders: seq<string> :=
    ["Persistence/DbContext", "Persistence/Configurations", "Persistence/Migrations", "Repositories", "Services", "Messaging"]

  const ApiFolders: seq<string> :=
    ["Controllers", "Filters", "Middleware", "Contracts", "Extensions"]

  /** `LayerConfigurationService.GetLayerDefinitions`. There is no SharedKernel entry;
      every other layer is filed under its own type and references exactly the layers
      the dependency rules expect of it by default. */
  function GetLayerDefinitions(): (t: LayerTable)
    ensures t.Keys == {Domain, Application, Infrastructure, API}
    ensures forall l :: l in t ==> t[l].layerType == l && t[l].dependencies == GetExpectedDependencies(l)
  {
    map[
      Domain := LayerDefinition(Domain, "classlib", DomainFolders, true, []),
      Application := LayerDefinition(Application, "classlib", ApplicationFolders, false, [Domain]),
      Infrastructure := LayerDefinition(Infrastructure, "classlib", InfrastructureFolders, false, [Application]),
      API := LayerDefinition(API, "webapi", ApiFolders, false, [Application])
    ]
  }

  /** No folder is listed twice for one layer. */
  predicate DistinctFolders(folders: seq<string>) {
    forall i, j :: 0 <= i < j < |folders| ==> folders[i] != folders[j]
  }

  /** The table's shape: four entries, each filed under its own type, only Domain
      mandatory, only API a web project, each layer's references the default ones the
      rules expect, and folder lists of 8, 6, 6 and 5 distinct names. */
  lemma LayerDefinitionsShape()
    ensures GetLayerDefinitions().Keys == {Domain, Application, Infrastructure, API}
    ensures SharedKernel !in GetLayerDefinitions()
    ensures forall l :: l in GetLayerDefinitions() ==>
      var d := GetLayerDefinitions()[l];
      && d.layerType == l
      && (d.isMandatory <==> l == Domain)
      && d.projectType == (if l == API then "webapi" else "classlib")
      && d.dependencies == GetExpectedDependencies(l)
      && DistinctFolders(d.folders)
    ensures |DomainFolders| == 8 && |ApplicationFolders| == 6 && |InfrastructureFolders| == 6 && |ApiFolders| == 5
  {
    assert DistinctFolders(DomainFolders);
    assert DistinctFolders(ApplicationFolders);
    assert DistinctFolders(InfrastructureFolders);
    assert DistinctFolders(ApiFolders);
  }

  /** The built-in table obeys every dependency rule, names only its own keys and
      has no cycle, so the dependency check passes on it. */
  lemma LayerDefinitionsPassRules()
    ensures HasRequiredKeys(GetLayerDefinitions())
    ensures Closed(GetLayerDefinitions())
    ensures AllEdgesAllowed(GetLayerDefinitions())
    ensures !HasDirectedCycle(GetLayerDefinitions())
    ensures RulesResult(GetLayerDefinitions(), false) == Success()
  {
    var t := GetLayerDefinitions();
    LayerDefinitionsShape();
    forall a, b | a in t && b in t[a].dependencies ensures b in t && IsValidDependency(a, b) {
      assert t[a].dependencies == GetExpectedDependencies(a);
    }
    AllowedEdgesAreAcyclic(t);
    RulesResultIsValid(t, false);
  }

  // ---------------------------------------------------------------------------
  // The table with a SharedKernel entry
  // ---------------------------------------------------------------------------

  /** The folders the generated README lists for SharedKernel. */
  const SharedKernelFolders: seq<string> := ["Entities", "ValueObjects", "Enums", "Constants", "Interfaces"]

  /** The built-in table with the SharedKernel entry it lacks: an optional class
      library that references nothing. Every layer can now be looked up. */
  function GetLayerDefinitionsWithSharedKernel(): (t: LayerTable)
    ensures forall l :: l in GetLayerDefinitions() ==> l in t && t[l] == GetLayerDefinitions()[l]
  {
    GetLayerDefinitions()[SharedKernel := LayerDefinition(SharedKernel, "classlib", SharedKernelFolders, false, [])]
  }

  /** The completed table holds every layer, filed under its own type; it still
      obeys every dependency rule and has no cycle. */
  lemma LayerDefinitionsWithSharedKernelPassRules()
    ensures forall l: LayerType :: l in GetLayerDefinitionsWithSharedKernel() && GetLayerDefinitionsWithSharedKernel()[l].layerType == l
    ensures HasRequiredKeys(GetLayerDefinitionsWithSharedKernel())
    ensures Closed(GetLayerDefinitionsWithSharedKernel())
    ensures AllEdgesAllowed(GetLayerDefinitionsWithSharedKernel())
    ensures !HasDirectedCycle(GetLayerDefinitionsWithSharedKernel())
    ensures RulesResult(GetLayerDefinitionsWithSharedKernel(), false) == Success()
  {
    var t := GetLayerDefinitionsWithSharedKernel();
    LayerDefinitionsShape();
    forall l: LayerType ensures l in t && t[l].layerType == l {
      match l
      case SharedKernel =>
      case Domain =>
      case Application =>
      case Infrastructure =>
      case API =>
    }
    forall a, b | a in t && b in t[a].dependencies ensures b in t && IsValidDependency(a, b) {
      assert t[a].dependencies == GetExpectedDependencies(a);
    }
    AllowedEdgesAreAcyclic(t);
    RulesResultIsValid(t, false);
  }
}

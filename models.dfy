/** The generator's data: the layer and API-style enums, the configuration the
    console front end fills in, and one layer's definition. */
module Models {

  /** The architectural layers, in declaration order. */
  datatype LayerType = SharedKernel | Domain | Application | Infrastructure | API

  /** The styles of API project the generator can scaffold. */
  datatype ApiType = WebAPI | MinimalAPI | gRPC

  /** Every layer the enum declares. */
  const AllLayers: set<LayerType> := {SharedKernel, Domain, Application, Infrastructure, API}

  /** The enum's underlying value: the position of the layer in its declaration. */
  function Ordinal(l: LayerType): nat {
    match l
    case SharedKernel => 0
    case Domain => 1
    case Application => 2
    case Infrastructure => 3
    case API => 4
  }

  /** `layer.ToString()`: the name used in messages and in project names. */
  function LayerName(l: LayerType): string {
    match l
    case SharedKernel => "SharedKernel"
    case Domain => "Domain"
    case Application => "Application"
    case Infrastructure => "Infrastructure"
    case API => "API"
  }

  /** The enum declares exactly five distinct values, in the order
      SharedKernel, Domain, Application, Infrastructure, API, and their names are distinct. */
  lemma LayerTypeDeclaration()
    ensures forall l :: l in AllLayers
    ensures |AllLayers| == 5
    ensures forall l, m :: Ordinal(l) == Ordinal(m) ==> l == m
    ensures forall l, m :: LayerName(l) == LayerName(m) ==> l == m
    ensures Ordinal(SharedKernel) < Ordinal(Domain) < Ordinal(Application) < Ordinal(Infrastructure) < Ordinal(API)
  {
    assert forall l :: l in AllLayers by {
      forall l ensures l in AllLayers {
        match l
        case SharedKernel =>
        case Domain =>
        case Application =>
        case Infrastructure =>
        case API =>
      }
    }
  }

  /** The settings one run generates from; a class with settable properties in the
      source, here a value the front end builds field by field. */
  datatype SolutionConfiguration = SolutionConfiguration(
    solutionName: string,
    baseNamespace: string,
    targetFramework: string,
    selectedLayers: seq<LayerType>,   // a List: insertion-ordered, duplicates allowed
    selectedApiType: ApiType,
    includeCqrs: bool,
    includeEfCore: bool,
    includeTests: bool,
    includeReadme: bool)

  /** `new SolutionConfiguration()`: the property initialisers. */
  function NewSolutionConfiguration(): SolutionConfiguration {
    SolutionConfiguration("", "", "net9.0", [], WebAPI, false, false, false, false)
  }

  /** One layer's project template: its type, the project template name, the folders
      to create, whether it is mandatory and the layers it references. */
  datatype LayerDefinition = LayerDefinition(
    layerType: LayerType,
    projectType: string,
    folders: seq<string>,
    isMandatory: bool,
    dependencies: seq<LayerType>)    // a List: ordered, duplicates allowed

  /** `new LayerDefinition()`: `Type` is the enum's zero value, the strings and lists
      are empty and `IsMandatory` is false. */
  function NewLayerDefinition(): LayerDefinition {
    LayerDefinition(SharedKernel, "", [], false, [])
  }

  /** The dictionary from layer to definition. */
  type LayerTable = map<LayerType, LayerDefinition>
}

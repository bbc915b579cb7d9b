/** The Clean Architecture dependency rules: which layer may reference which, the
    references each layer gets by default, and the check run over a whole layer
    table before any project is generated. */
module DependencyValidator {
  import opened Outcomes
  import opened Models
  import opened Text
  import opened InputValidator

  // ---------------------------------------------------------------------------
  // The allowed-edge relation
  // ---------------------------------------------------------------------------

  /** `DependencyValidator.IsValidDependency`: may `fromLayer` reference `toLayer`?
      Every allowed reference points strictly inward, to a lower enum value, and
      nothing may reference Infrastructure or API. */
  function IsValidDependency(fromLayer: LayerType, toLayer: LayerType): (r: bool)
    ensures r ==> Ordinal(toLayer) < Ordinal(fromLayer)
    ensures toLayer == Infrastructure || toLayer == API ==> !r
  {
    match fromLayer
    case SharedKernel => false
    case Domain => toLayer == SharedKernel
    case Application => toLayer == Domain || toLayer == SharedKernel
    case Infrastructure => toLayer == Application
    case API => toLayer == Application
  }

  /** The rule table in full: SharedKernel references nothing, Domain only SharedKernel,
      Application only Domain and SharedKernel, Infrastructure and API only Application.
      No layer may reference itself. */
  lemma AllowedDependencies(f: LayerType, t: LayerType)
    ensures IsValidDependency(f, t) <==>
      || (f == Domain && t == SharedKernel)
      || (f == Application && (t == Domain || t == SharedKernel))
      || ((f == Infrastructure || f == API) && t == Application)
    ensures !IsValidDependency(f, f)
  {
  }

  /** `DependencyValidator.GetExpectedDependencies`: the references a layer gets by
      default (Domain's optional SharedKernel reference is added later, and only when
      SharedKernel is selected). */
  function GetExpectedDependencies(layer: LayerType): (r: seq<LayerType>)
    ensures forall i :: 0 <= i < |r| ==> IsValidDependency(layer, r[i])
    ensures forall i, j :: 0 <= i < j < |r| ==> r[i] != r[j]
    ensures |r| <= 1
    ensures layer == SharedKernel || layer == Domain <==> r == []
    ensures SharedKernel !in r
  {
    match layer
    case SharedKernel => []
    case Domain => []
    case Application => [Domain]
    case Infrastructure => [Application]
    case API => [Application]
  }

  // ---------------------------------------------------------------------------
  // The dependency graph of a layer table
  // ---------------------------------------------------------------------------

  /** `a` is a key whose definition lists `b` as a dependency. */
  predicate Edge(defs: LayerTable, a: LayerType, b: LayerType) {
    a in defs && b in defs[a].dependencies
  }

  /** Consecutive elements are joined by edges. */
  predicate IsPath(defs: LayerTable, p: seq<LayerType>) {
    forall i :: 0 <= i < |p| - 1 ==> Edge(defs, p[i], p[i + 1])
  }

  /** A closed walk of at least one edge. */
  predicate IsCycle(defs: LayerTable, p: seq<LayerType>) {
    |p| >= 2 && IsPath(defs, p) && p[0] == p[|p| - 1]
  }

  /** The table's dependency graph has a directed cycle. */
  ghost predicate HasDirectedCycle(defs: LayerTable) {
    exists p :: IsCycle(defs, p)
  }

  /** Every dependency named in the table is itself a key: looking it up cannot throw. */
  predicate Closed(defs: LayerTable) {
    forall a, b :: a in defs && b in defs[a].dependencies ==> b in defs
  }

  /** Every reference in the table is one the rules allow. */
  predicate AllEdgesAllowed(defs: LayerTable) {
    forall a, b :: a in defs && b in defs[a].dependencies ==> IsValidDependency(a, b)
  }

  /** A graph whose edges all strictly decrease some rank has no cycle. */
  lemma {:induction false} RankedGraphIsAcyclic(defs: LayerTable, rank: map<LayerType, nat>)
    requires forall a, b :: Edge(defs, a, b) ==> a in rank && b in rank && rank[b] < rank[a]
    ensures !HasDirectedCycle(defs)
  {
    forall p | IsCycle(defs, p) ensures false {
      RankFalls(defs, rank, p);
    }
  }

  lemma {:induction false} RankFalls(defs: LayerTable, rank: map<LayerType, nat>, p: seq<LayerType>)
    requires forall a, b :: Edge(defs, a, b) ==> a in rank && b in rank && rank[b] < rank[a]
    requires |p| >= 2 && IsPath(defs, p)
    ensures p[0] in rank && p[|p| - 1] in rank && rank[p[|p| - 1]] < rank[p[0]]
    decreases |p|
  {
    assert Edge(defs, p[0], p[1]);
    if |p| > 2 {
      assert IsPath(defs, p[1..]) by {
        forall i | 0 <= i < |p[1..]| - 1 ensures Edge(defs, p[1..][i], p[1..][i + 1]) {
          assert Edge(defs, p[i + 1], p[i + 2]);
        }
      }
      RankFalls(defs, rank, p[1..]);
    }
  }

  /** The rules admit no cycle: every allowed reference points to a lower enum value. */
  lemma AllowedEdgesAreAcyclic(defs: LayerTable)
    requires AllEdgesAllowed(defs)
    ensures !HasDirectedCycle(defs)
  {
    var rank := map l | l in AllLayers :: Ordinal(l);
    LayerTypeDeclaration();
    forall a, b | Edge(defs, a, b) ensures a in rank && b in rank && rank[b] < rank[a] {
      AllowedDependencies(a, b);
    }
    RankedGraphIsAcyclic(defs, rank);
  }

  // ---------------------------------------------------------------------------
  // Depth-first cycle detection
  // ---------------------------------------------------------------------------

  /** The position of the first occurrence of `x` in `s`. */
  function FirstIndex(s: seq<LayerType>, x: LayerType): (r: nat)
    requires x in s
    ensures r < |s| && s[r] == x
    ensures forall k :: 0 <= k < |s| && s[k] == x ==> r <= k
  {
    if s[0] == x then 0 else FirstIndex(s[1..], x) + 1
  }

  /** Every layer in `done` is a key, and every dependency of `done[i]` finished
      before it. */
  predicate FinishOrder(defs: LayerTable, done: seq<LayerType>) {
    forall i :: 0 <= i < |done| ==> done[i] in defs && forall b :: b in defs[done[i]].dependencies ==> b in done[..i]
  }

  /** The search's sets at a call: `recursionStack` holds the layers of the current
      path, `visited` holds those plus the finished ones, and finished layers are in
      finish order. */
  ghost predicate SearchState(defs: LayerTable, visited: set<LayerType>, recursionStack: set<LayerType>,
                              path: seq<LayerType>, done: seq<LayerType>) {
    && recursionStack == (set x | x in path)
    && visited == recursionStack + (set x | x in done)
    && recursionStack !! (set x | x in done)
    && (forall x :: x in path ==> x in defs)
    && IsPath(defs, path)
    && FinishOrder(defs, done)
  }

  /** A finish order ranks the graph restricted to it: no cycle, and no missing key. */
  lemma FinishedGraphIsAcyclic(defs: LayerTable, done: seq<LayerType>)
    requires FinishOrder(defs, done)
    requires forall a :: a in defs ==> a in done
    ensures !HasDirectedCycle(defs) && Closed(defs)
  {
    var rank := map l | l in done :: FirstIndex(done, l);
    forall a, b | Edge(defs, a, b) ensures a in rank && b in rank && rank[b] < rank[a] {
      var i := FirstIndex(done, a);
      assert b in done[..i];
      var j :| 0 <= j < i && done[..i][j] == b;
      assert done[j] == b;
    }
    RankedGraphIsAcyclic(defs, rank);
  }

  /** A path that comes back to one of its own layers closes a cycle. */
  lemma BackEdgeCloses(defs: LayerTable, path: seq<LayerType>, layer: LayerType)
    requires IsPath(defs, path) && path != [] && Edge(defs, path[|path| - 1], layer)
    requires layer in path
    ensures HasDirectedCycle(defs)
  {
    var j :| 0 <= j < |path| && path[j] == layer;
    var cycle := path[j..] + [layer];
    forall k | 0 <= k < |cycle| - 1 ensures Edge(defs, cycle[k], cycle[k + 1]) {
      if k < |path| - j - 1 {
        assert cycle[k] == path[j + k] && cycle[k + 1] == path[j + k + 1];
      }
    }
    assert IsCycle(defs, cycle);
  }

  /** A path followed by an edge out of its last layer is a path. */
  lemma ExtendPath(defs: LayerTable, path: seq<LayerType>, layer: LayerType)
    requires IsPath(defs, path)
    requires path != [] ==> Edge(defs, path[|path| - 1], layer)
    ensures IsPath(defs, path + [layer])
  {
    var p := path + [layer];
    forall i | 0 <= i < |p| - 1 ensures Edge(defs, p[i], p[i + 1]) {
      if i < |path| - 1 { assert Edge(defs, path[i], path[i + 1]); }
    }
  }

  /** A key all of whose dependencies have finished may finish next. */
  lemma FinishLayer(defs: LayerTable, finished: seq<LayerType>, layer: LayerType)
    requires FinishOrder(defs, finished)
    requires layer in defs && forall b :: b in defs[layer].dependencies ==> b in finished
    ensures FinishOrder(defs, finished + [layer])
  {
    var done := finished + [layer];
    forall k | 0 <= k < |done|
      ensures done[k] in defs && forall b :: b in defs[done[k]].dependencies ==> b in done[..k]
    {
      if k < |finished| {
        assert done[..k] == finished[..k];
      } else {
        assert done[..k] == finished;
      }
    }
  }

  /** `DependencyValidator.HasCycle`: depth-first search from `layer`. The source's
      two shared hash sets are passed in and handed back; `path` and `done` are the
      proof's record of the recursion stack in order and of the finished layers in
      finish order. */
  method HasCycle(layer: LayerType, defs: LayerTable, visited: set<LayerType>, recursionStack: set<LayerType>,
                  ghost path: seq<LayerType>, ghost done: seq<LayerType>)
    returns (r: Outcome<bool>, visited': set<LayerType>, recursionStack': set<LayerType>, ghost done': seq<LayerType>)
    requires SearchState(defs, visited, recursionStack, path, done)
    requires path == [] ==> layer in defs
    requires path != [] ==> Edge(defs, path[|path| - 1], layer)
    ensures r.Returned? && r.value ==> HasDirectedCycle(defs)
    ensures r.Threw? ==> r.exception == KeyNotFound && !Closed(defs)
    ensures r.Returned? && !r.value ==>
      && recursionStack' == recursionStack
      && SearchState(defs, visited', recursionStack', path, done')
      && done <= done' && visited <= visited' && layer in done'
    decreases AllLayers - visited
  {
    visited', recursionStack', done' := visited, recursionStack, done;
    if layer in recursionStack {
      assert layer in path;
      BackEdgeCloses(defs, path, layer);
      return Returned(true), visited', recursionStack', done';
    }
    if layer in visited {
      assert layer in (set x | x in done);
      return Returned(false), visited', recursionStack', done';
    }
    if layer !in defs {
      assert Edge(defs, path[|path| - 1], layer);
      return Threw(KeyNotFound), visited', recursionStack', done';
    }
    visited' := visited' + {layer};
    recursionStack' := recursionStack' + {layer};
    ghost var path' := path + [layer];
    assert recursionStack' == (set x | x in path');
    assert layer !in (set x | x in done);
    ExtendPath(defs, path, layer);
    var dependencies := defs[layer].dependencies;
    var i := 0;
    while i < |dependencies|
      invariant 0 <= i <= |dependencies|
      invariant SearchState(defs, visited', recursionStack', path', done')
      invariant recursionStack' == recursionStack + {layer}
      invariant visited + {layer} <= visited'
      invariant done <= done'
      invariant forall k :: 0 <= k < i ==> dependencies[k] in done'
    {
      ghost var before := done';
      var found: Outcome<bool>;
      found, visited', recursionStack', done' := HasCycle(dependencies[i], defs, visited', recursionStack', path', done');
      if !(found.Returned? && !found.value) {
        return found, visited', recursionStack', done';
      }
      assert forall k :: 0 <= k < i ==> dependencies[k] in done' by {
        forall k | 0 <= k < i ensures dependencies[k] in done' {
          var m :| 0 <= m < |before| && before[m] == dependencies[k];
          assert done'[m] == dependencies[k];
        }
      }
      i := i + 1;
    }
    recursionStack' := recursionStack' - {layer};
    ghost var finished := done';
    done' := done' + [layer];
    assert forall b :: b in dependencies ==> b in finished;
    PopLayer(defs, visited', recursionStack, path, layer, finished);
    r := Returned(false);
  }

  /** Leaving a layer whose references are all finished moves it from the current
      path to the finished layers. */
  lemma PopLayer(defs: LayerTable, visited: set<LayerType>, recursionStack: set<LayerType>,
                 path: seq<LayerType>, layer: LayerType, finished: seq<LayerType>)
    requires SearchState(defs, visited, recursionStack + {layer}, path + [layer], finished)
    requires recursionStack == (set x | x in path) && layer !in recursionStack && IsPath(defs, path)
    requires layer in defs && forall b :: b in defs[layer].dependencies ==> b in finished
    ensures SearchState(defs, visited, recursionStack, path, finished + [layer])
  {
    FinishLayer(defs, finished, layer);
    assert (set x | x in finished + [layer]) == (set x | x in finished) + {layer};
    assert forall x :: x in path ==> x in path + [layer];
  }

  /** `DependencyValidator.HasCircularDependencies`: a search from every key in turn,
      sharing one visited set. The source takes the keys in insertion order; here any
      order may be taken, and the result is proved for all of them. */
  method HasCircularDependencies(defs: LayerTable) returns (r: Outcome<bool>)
    ensures r.Returned? && r.value ==> HasDirectedCycle(defs)
    ensures r.Returned? && !r.value ==> Closed(defs) && !HasDirectedCycle(defs)
    ensures r.Threw? ==> r.exception == KeyNotFound && !Closed(defs)
    ensures Closed(defs) ==> r.Returned? && (r.value <==> HasDirectedCycle(defs))
  {
    var visited: set<LayerType> := {};
    var recursionStack: set<LayerType> := {};
    ghost var done: seq<LayerType> := [];
    var remaining := defs.Keys;
    while remaining != {}
      invariant remaining <= defs.Keys
      invariant SearchState(defs, visited, recursionStack, [], done)
      invariant recursionStack == {}
      invariant forall a :: a in defs && a !in remaining ==> a in done
      decreases remaining
    {
      var layer :| layer in remaining;
      var found: Outcome<bool>;
      found, visited, recursionStack, done := HasCycle(layer, defs, visited, recursionStack, [], done);
      if !(found.Returned? && !found.value) {
        r := found;
        return;
      }
      remaining := remaining - {layer};
    }
    assert FinishOrder(defs, done);
    FinishedGraphIsAcyclic(defs, done);
    r := Returned(false);
  }

  // ---------------------------------------------------------------------------
  // The rule check
  // ---------------------------------------------------------------------------

  /** The `Where` filter of each rule: the dependencies it reports for `layer`. */
  predicate Reported(layer: LayerType, d: LayerType) {
    match layer
    case SharedKernel => true
    case Domain => d != SharedKernel
    case Application => d != Domain && d != SharedKernel
    case Infrastructure => d != Application
    case API => d != Application
  }

  /** The rules report exactly the references `IsValidDependency` forbids. */
  lemma ReportedIsInvalid(layer: LayerType, d: LayerType)
    ensures Reported(layer, d) <==> !IsValidDependency(layer, d)
  {
  }

  /** The dependencies of one layer that its rule reports, in list order. */
  function ReportedDependencies(layer: LayerType, deps: seq<LayerType>): (r: seq<LayerType>)
    ensures forall x :: x in r <==> x in deps && Reported(layer, x)
  {
    if deps == [] then []
    else if Reported(layer, deps[0]) then [deps[0]] + ReportedDependencies(layer, deps[1..])
    else ReportedDependencies(layer, deps[1..])
  }

  /** Layer names, as interpolated by `string.Join`. */
  function LayerNames(layers: seq<LayerType>): (r: seq<string>)
    ensures |r| == |layers| && forall i :: 0 <= i < |layers| ==> r[i] == LayerName(layers[i])
  {
    if layers == [] then [] else [LayerName(layers[0])] + LayerNames(layers[1..])
  }

  const Violation := "\U{274C} VIOLATION: "
  const CycleViolation := Violation + "Circular dependencies detected!"

  /** The fixed text of each rule's message, up to the list of offending layers. */
  function RuleMessage(layer: LayerType): string {
    match layer
    case SharedKernel => Violation + "SharedKernel layer must not have dependencies, but found: "
    case Domain => Violation + "Domain layer can only depend on SharedKernel, but found: "
    case Application => Violation + "Application layer can only depend on Domain and SharedKernel, but found: "
    case Infrastructure => Violation + "Infrastructure layer can only depend on Application, but found: "
    case API => Violation + "API layer can only depend on Application, but found: "
  }

  /** One rule's violation, if any: for a key, its message and the offending layers. */
  function RuleViolation(defs: LayerTable, layer: LayerType): seq<string> {
    if layer !in defs then []
    else
      var bad := ReportedDependencies(layer, defs[layer].dependencies);
      if bad == [] then [] else [RuleMessage(layer) + Join(", ", LayerNames(bad))]
  }

  /** The four layers whose definitions the check looks up unconditionally. */
  predicate HasRequiredKeys(defs: LayerTable) {
    Domain in defs && Application in defs && Infrastructure in defs && API in defs
  }

  /** The violations of rules 1 to 6, in the order the source adds them. */
  function Violations(defs: LayerTable, cyclic: bool): seq<string> {
    RuleViolation(defs, SharedKernel) + RuleViolation(defs, Domain) + RuleViolation(defs, Application)
      + RuleViolation(defs, Infrastructure) + RuleViolation(defs, API)
      + (if cyclic then [CycleViolation] else [])
  }

  /** The result the check builds from its violations. */
  function RulesResult(defs: LayerTable, cyclic: bool): ValidationResult {
    var v := Violations(defs, cyclic);
    if v == [] then Success() else Failure(Join("\n", v))
  }

  /** A rule fires iff the layer is a key with a reference the rules forbid. */
  lemma RuleViolationFires(defs: LayerTable, layer: LayerType)
    ensures RuleViolation(defs, layer) != [] <==>
      layer in defs && exists d :: d in defs[layer].dependencies && !IsValidDependency(layer, d)
  {
    if layer in defs {
      var deps := defs[layer].dependencies;
      var bad := ReportedDependencies(layer, deps);
      if bad != [] {
        assert bad[0] in bad;
        ReportedIsInvalid(layer, bad[0]);
      } else {
        forall d | d in deps ensures IsValidDependency(layer, d) {
          ReportedIsInvalid(layer, d);
        }
      }
    }
  }

  /** No violation is recorded iff no rule fires and there is no cycle. */
  lemma NoViolations(defs: LayerTable, cyclic: bool)
    ensures Violations(defs, cyclic) == [] <==>
      && RuleViolation(defs, SharedKernel) == [] && RuleViolation(defs, Domain) == []
      && RuleViolation(defs, Application) == [] && RuleViolation(defs, Infrastructure) == []
      && RuleViolation(defs, API) == [] && !cyclic
  {
    var v := Violations(defs, cyclic);
    assert |v| == |RuleViolation(defs, SharedKernel)| + |RuleViolation(defs, Domain)| + |RuleViolation(defs, Application)|
      + |RuleViolation(defs, Infrastructure)| + |RuleViolation(defs, API)| + (if cyclic then 1 else 0);
  }

  /** Every reference is allowed iff none of the five rules fires. */
  lemma AllowedIffNoRuleFires(defs: LayerTable)
    ensures AllEdgesAllowed(defs) <==>
      && RuleViolation(defs, SharedKernel) == [] && RuleViolation(defs, Domain) == []
      && RuleViolation(defs, Application) == [] && RuleViolation(defs, Infrastructure) == []
      && RuleViolation(defs, API) == []
  {
    if !AllEdgesAllowed(defs) {
      ForbiddenFiresSomeRule(defs);
    } else {
      AllowedFiresNoRule(defs);
    }
  }

  /** When some reference is forbidden, one of the five rules fires. */
  lemma ForbiddenFiresSomeRule(defs: LayerTable)
    requires !AllEdgesAllowed(defs)
    ensures || RuleViolation(defs, SharedKernel) != [] || RuleViolation(defs, Domain) != []
            || RuleViolation(defs, Application) != [] || RuleViolation(defs, Infrastructure) != []
            || RuleViolation(defs, API) != []
  {
    var a, b :| a in defs && b in defs[a].dependencies && !IsValidDependency(a, b);
    ForbiddenReferenceFires(defs, a, b);
    match a
    case SharedKernel =>
    case Domain =>
    case Application =>
    case Infrastructure =>
    case API =>
  }

  /** When every reference is allowed, none of the five rules fires. */
  lemma AllowedFiresNoRule(defs: LayerTable)
    requires AllEdgesAllowed(defs)
    ensures RuleViolation(defs, SharedKernel) == [] && RuleViolation(defs, Domain) == []
    ensures RuleViolation(defs, Application) == [] && RuleViolation(defs, Infrastructure) == []
    ensures RuleViolation(defs, API) == []
  {
    AllowedFiresNothing(defs, SharedKernel);
    AllowedFiresNothing(defs, Domain);
    AllowedFiresNothing(defs, Application);
    AllowedFiresNothing(defs, Infrastructure);
    AllowedFiresNothing(defs, API);
  }

  /** A forbidden reference makes its layer's rule fire. */
  lemma ForbiddenReferenceFires(defs: LayerTable, a: LayerType, b: LayerType)
    requires a in defs && b in defs[a].dependencies && !IsValidDependency(a, b)
    ensures RuleViolation(defs, a) != []
  {
    RuleViolationFires(defs, a);
  }

  /** When every reference is allowed, no rule fires. */
  lemma AllowedFiresNothing(defs: LayerTable, layer: LayerType)
    requires AllEdgesAllowed(defs)
    ensures RuleViolation(defs, layer) == []
  {
    RuleViolationFires(defs, layer);
  }

  /** The check passes iff every reference is allowed and there is no cycle. */
  lemma RulesResultIsValid(defs: LayerTable, cyclic: bool)
    ensures RulesResult(defs, cyclic).isValid <==> AllEdgesAllowed(defs) && !cyclic
    ensures !RulesResult(defs, cyclic).isValid ==> RulesResult(defs, cyclic).errorMessage == Some(Join("\n", Violations(defs, cyclic)))
  {
    NoViolations(defs, cyclic);
    AllowedIffNoRuleFires(defs);
  }

  /** A forbidden reference is named in the failure message, together with its rule. */
  lemma ForbiddenReferenceIsReported(defs: LayerTable, cyclic: bool, a: LayerType, b: LayerType)
    requires a in defs && b in defs[a].dependencies && !IsValidDependency(a, b)
    ensures RulesResult(defs, cyclic).errorMessage.Some?
    ensures Contains(RulesResult(defs, cyclic).errorMessage.value, RuleMessage(a))
    ensures Contains(RulesResult(defs, cyclic).errorMessage.value, LayerName(b))
  {
    RulesResultIsValid(defs, cyclic);
    var line := RuleLineNames(defs, a, b);
    var v := Violations(defs, cyclic);
    var idx := RuleLineIsListed(defs, cyclic, a, line);
    JoinContainsElement("\n", v, idx);
    ContainsTrans(Join("\n", v), line, RuleMessage(a));
    ContainsTrans(Join("\n", v), line, LayerName(b));
  }

  /** A rule's line is one of the violations. */
  lemma RuleLineIsListed(defs: LayerTable, cyclic: bool, a: LayerType, line: string) returns (idx: nat)
    requires RuleViolation(defs, a) == [line]
    ensures idx < |Violations(defs, cyclic)| && Violations(defs, cyclic)[idx] == line
  {
    var r0, r1, r2 := RuleViolation(defs, SharedKernel), RuleViolation(defs, Domain), RuleViolation(defs, Application);
    var r3, r4 := RuleViolation(defs, Infrastructure), RuleViolation(defs, API);
    var c := if cyclic then [CycleViolation] else [];
    match a
    case SharedKernel => idx := LineOfPart(r0, r1, r2, r3, r4, c, 0, line);
    case Domain => idx := LineOfPart(r0, r1, r2, r3, r4, c, 1, line);
    case Application => idx := LineOfPart(r0, r1, r2, r3, r4, c, 2, line);
    case Infrastructure => idx := LineOfPart(r0, r1, r2, r3, r4, c, 3, line);
    case API => idx := LineOfPart(r0, r1, r2, r3, r4, c, 4, line);
  }

  /** The single line of one of five parts sits somewhere in their concatenation. */
  lemma LineOfPart(r0: seq<string>, r1: seq<string>, r2: seq<string>, r3: seq<string>, r4: seq<string>, c: seq<string>,
                   k: nat, line: string) returns (idx: nat)
    requires k < 5
    requires k == 0 ==> r0 == [line]
    requires k == 1 ==> r1 == [line]
    requires k == 2 ==> r2 == [line]
    requires k == 3 ==> r3 == [line]
    requires k == 4 ==> r4 == [line]
    ensures idx < |r0 + r1 + r2 + r3 + r4 + c| && (r0 + r1 + r2 + r3 + r4 + c)[idx] == line
  {
    idx := if k == 0 then 0
      else if k == 1 then |r0|
      else if k == 2 then |r0| + |r1|
      else if k == 3 then |r0| + |r1| + |r2|
      else |r0| + |r1| + |r2| + |r3|;
  }

  /** The line a rule adds for a forbidden reference starts with the rule's text and
      names the offending layer. */
  lemma RuleLineNames(defs: LayerTable, a: LayerType, b: LayerType) returns (line: string)
    requires a in defs && b in defs[a].dependencies && !IsValidDependency(a, b)
    ensures RuleViolation(defs, a) == [line]
    ensures Contains(line, RuleMessage(a)) && Contains(line, LayerName(b))
  {
    ReportedIsInvalid(a, b);
    var bad := ReportedDependencies(a, defs[a].dependencies);
    var k :| 0 <= k < |bad| && bad[k] == b;
    var names := LayerNames(bad);
    line := RuleMessage(a) + Join(", ", names);
    var joined := Join(", ", names);
    JoinContainsElement(", ", names, k);
    assert names[k] == LayerName(b);
    var message := RuleMessage(a);
    ContainsPrepends(message, joined, LayerName(b));
    ContainsSelf(message);
    ContainsExtends(message, joined, message);
  }

  /** `DependencyValidator.ValidateDependencyRules`. The optional configuration the
      source accepts only feeds a flag it never reads, so it has no effect here.
      Looking up Domain, Application, Infrastructure or API throws when the key is
      missing; so does the cycle search when a dependency is not a key. */
  method ValidateDependencyRules(defs: LayerTable, config: Option<SolutionConfiguration>)
    returns (r: Outcome<ValidationResult>)
    ensures !HasRequiredKeys(defs) ==> r == Threw(KeyNotFound)
    ensures HasRequiredKeys(defs) && Closed(defs) ==>
      r == Returned(RulesResult(defs, HasDirectedCycle(defs))) && (r.value.isValid <==> AllEdgesAllowed(defs))
    ensures r.Threw? ==> r.exception == KeyNotFound && !(HasRequiredKeys(defs) && Closed(defs))
    ensures r.Returned? && !Closed(defs) ==> r.value == RulesResult(defs, true) && !r.value.isValid
  {
    if !HasRequiredKeys(defs) {
      return Threw(KeyNotFound);
    }
    var cyclic := HasCircularDependencies(defs);
    if cyclic.Threw? {
      return Threw(cyclic.exception);
    }
    r := Returned(RulesResult(defs, cyclic.value));
    RulesResultIsValid(defs, cyclic.value);
    if AllEdgesAllowed(defs) {
      AllowedEdgesAreAcyclic(defs);
    }
  }
}

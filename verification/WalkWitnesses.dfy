/** Two policies on which the walk does less than one might expect: a nested criteria error, and a cycle between instances. */
module WalkWitnesses {
  import opened Prelude
  import opened ComponentKey
  import opened Instances
  import opened Resolution
  import opened NodeWalk

  /** The key of a service, by the name of its contract. */
  function ServiceOf(contract: string): ComponentInstanceKey {
    ComponentInstanceKey("n", "c", "s", "n", contract, "x", "", "x", "v", ROOT)
  }

  lemma ServicesDiffer(a: string, b: string)
    requires Plain(a) && Plain(b) && a != b
    ensures ServiceOf(a).GetKey() != ServiceOf(b).GetKey()
  {
    if ServiceOf(a).GetKey() == ServiceOf(b).GetKey() {
      KeyInjective(ServiceOf(a), ServiceOf(b));
    }
  }

  // ---- The walk, one component at a time.

  ghost predicate HasEdge(m: StateMap, k: Key, e: Key) {
    k in m && e in m[k].edgesOut
  }

  /** No discovery parameters anywhere. */
  ghost predicate Blank(m: StateMap) {
    forall k :: k in m ==> m[k].discovery.Empty()
  }

  /** From m, nothing is lost, and no discovery parameters are added. */
  ghost predicate Onwards(m: StateMap, m': StateMap) {
    Grows(m, m') && (Blank(m) ==> Blank(m'))
  }

  /** The state in which the child of a component is walked. */
  function Entering(m: StateMap, service: ComponentInstanceKey, cik: ComponentInstanceKey): StateMap {
    DiscoveryRecorded(LabelsRecorded(EdgeStored(m, Some(service), cik), cik), cik, NilParams)
  }

  lemma RecordingGoesOn(m: StateMap, cik: ComponentInstanceKey, d: Key, depth: nat)
    requires cik.GetKey() in m
    ensures Onwards(m, ResolvedRecorded(m, cik, d, depth))
  {
  }

  lemma EnteringGoesOn(m: StateMap, service: ComponentInstanceKey, cik: ComponentInstanceKey)
    requires service.GetKey() in m && service.GetKey() != cik.GetKey() && Blank(m)
    ensures var m' := Entering(m, service, cik);
      Onwards(m, m') && HasEdge(m', service.GetKey(), cik.GetKey()) && cik.GetKey() in m'
      && AddParams(EntryOf(LabelsRecorded(EdgeStored(m, Some(service), cik), cik), cik).discovery, NilParams).Some?
  {
    var s, k := service.GetKey(), cik.GetKey();
    var x := if k in m then m[k] else NewInstance(cik);
    assert Entering(m, service, cik) == m[s := WithEdgeOut(m[s], k)][k := WithDiscoveryParams(x, NilParams)];
    EntryUpdatedGoesOn(m, s, k, x);
  }

  lemma EntryUpdatedGoesOn(m: StateMap, s: Key, k: Key, x: Instance)
    requires s in m && s != k && Blank(m) && x.discovery.Empty() && (k in m ==> x == m[k])
    ensures var m' := m[s := WithEdgeOut(m[s], k)][k := WithDiscoveryParams(x, NilParams)];
      Onwards(m, m') && HasEdge(m', s, k)
  {
  }

  lemma StartGoesOn(m: StateMap, arrival: Option<ComponentInstanceKey>, service: ComponentInstanceKey)
    requires arrival.Some? ==> arrival.value.GetKey() in m
    ensures var m' := EdgeStored(LabelsRecorded(m, service), arrival, service);
      Onwards(m, m') && service.GetKey() in m' && (arrival.Some? ==> HasEdge(m', arrival.value.GetKey(), service.GetKey()))
  {
  }

  /** A component that matches, announces nothing and asks for a contract. */
  ghost predicate Asks<S(!new)>(o: Oracle<S>, scope: S, name: string, child: S) {
    && o.matches(scope, name) == Matched && o.discover(scope, name) == Some((NilParams, scope))
    && o.kind(scope, name) == Contract(child) && forall t: S :: o.back(scope, name, t) == scope
  }

  /** Such a component is passed once its child is resolved. */
  lemma ComponentPassed<S(!new)>(o: Oracle<S>, universe: set<Key>, d: Key, scope: S, service: ComponentInstanceKey,
                                 components: seq<string>, path: seq<Key>, depth: nat, m: StateMap, child: S, m1: StateMap)
    requires ValidOracle(o, universe) && components != [] && Asks(o, scope, components[0], child)
    requires service.IsService() && service.GetKey() in m && Plain(components[0]) && components[0] != ROOT && Blank(m)
    requires var cik := ComponentKeyOf(service, components[0]); var m0 := Entering(m, service, cik);
      var c := Walk(o, universe, d, child, Some(cik), path, depth + 1, m0);
      c.end == Completed && c.m == m1 && Onwards(m0, m1)
    ensures var cik := ComponentKeyOf(service, components[0]); var m2 := ResolvedRecorded(m1, cik, d, depth);
      && WalkComponents(o, universe, d, scope, service, components, path, depth, m)
         == WalkComponents(o, universe, d, scope, service, components[1..], path, depth, m2)
      && Onwards(m, m2) && Onwards(m1, m2) && HasEdge(m2, service.GetKey(), cik.GetKey())
  {
    var name := components[0];
    var cik := ComponentKeyOf(service, name);
    ParentOfComponent(service, name);
    EnteringGoesOn(m, service, cik);
    RecordingGoesOn(m1, cik, d, depth);
    var m0 := LabelsRecorded(EdgeStored(m, Some(service), cik), cik);
    ChildWalked(o, universe, d, scope, name, cik, path, depth, m0, child, m1);
  }

  lemma ChildWalked<S(!new)>(o: Oracle<S>, universe: set<Key>, d: Key, scope: S, name: string, cik: ComponentInstanceKey,
                             path: seq<Key>, depth: nat, m: StateMap, child: S, m1: StateMap)
    requires ValidOracle(o, universe) && Asks(o, scope, name, child) && AddParams(EntryOf(m, cik).discovery, NilParams).Some?
    requires var c := Walk(o, universe, d, child, Some(cik), path, depth + 1, DiscoveryRecorded(m, cik, NilParams));
      c.end == Completed && c.m == m1
    ensures WalkComponent(o, universe, d, scope, name, cik, path, depth, m) == Walked(Completed, m1, scope)
  {
    var m0 := DiscoveryRecorded(m, cik, NilParams);
    var w, c := WalkKind(o, universe, d, scope, name, cik, path, depth, m0), Walk(o, universe, d, child, Some(cik), path, depth + 1, m0);
    assert w == c.(scope := o.back(scope, name, c.scope));
  }

  /** A node with a new service is resolved once its components are. */
  lemma NodePassed<S(!new)>(o: Oracle<S>, universe: set<Key>, d: Key, scope: S, arrival: Option<ComponentInstanceKey>,
                            path: seq<Key>, depth: nat, m: StateMap, service: Service<S>, m1: StateMap)
    requires ValidOracle(o, universe) && o.enter(scope) == Some(service) && service.cik.GetKey() !in path && service.components.Some?
    requires arrival.Some? ==> arrival.value.GetKey() in m
    requires var m0 := EdgeStored(LabelsRecorded(m, service.cik), arrival, service.cik);
      Onwards(m0, m1) &&
      WalkComponents(o, universe, d, service.scope, service.cik, service.components.value, path + [service.cik.GetKey()], depth, m0)
        == Walked(Completed, m1, service.scope)
    ensures var w := Walk(o, universe, d, scope, arrival, path, depth, m);
      && w.end == Completed && Onwards(m, w.m) && Onwards(m1, w.m) && w.scope == service.scope
      && (arrival.Some? ==> HasEdge(w.m, arrival.value.GetKey(), service.cik.GetKey()))
  {
    StartGoesOn(m, arrival, service.cik);
    FewerLeft(universe, path, service.cik.GetKey());
    WalkServiceEnds(o, universe, d, service, arrival, path + [service.cik.GetKey()], depth, m);
    RecordingGoesOn(m1, service.cik, d, depth);
  }

  /** A node whose only component does not match. */
  lemma LeafPassed<S(!new)>(o: Oracle<S>, universe: set<Key>, d: Key, scope: S, arrival: Option<ComponentInstanceKey>,
                            path: seq<Key>, depth: nat, m: StateMap, service: Service<S>, name: string)
    requires ValidOracle(o, universe) && o.enter(scope) == Some(service) && service.cik.GetKey() !in path
    requires service.components == Some([name]) && o.matches(service.scope, name) == NotMatched
    requires arrival.Some? ==> arrival.value.GetKey() in m
    ensures var w := Walk(o, universe, d, scope, arrival, path, depth, m);
      && w.end == Completed && Onwards(m, w.m)
      && (arrival.Some? ==> HasEdge(w.m, arrival.value.GetKey(), service.cik.GetKey()))
  {
    var m0 := EdgeStored(LabelsRecorded(m, service.cik), arrival, service.cik);
    NodePassed(o, universe, d, scope, arrival, path, depth, m, service, m0);
  }

  /** A node whose only component asks for a service that is a leaf. */
  lemma CallPassed<S(!new)>(o: Oracle<S>, universe: set<Key>, d: Key, scope: S, arrival: ComponentInstanceKey,
                            path: seq<Key>, depth: nat, m: StateMap, service: Service<S>, name: string, child: S, leaf: Service<S>, other: string)
    requires ValidOracle(o, universe) && o.enter(scope) == Some(service) && service.components == Some([name])
    requires Asks(o, service.scope, name, child) && arrival.GetKey() in m && Blank(m)
    requires o.enter(child) == Some(leaf) && leaf.components == Some([other]) && o.matches(leaf.scope, other) == NotMatched
    requires service.cik.GetKey() !in path && leaf.cik.GetKey() !in path && leaf.cik.GetKey() != service.cik.GetKey()
    ensures var w, cik := Walk(o, universe, d, scope, Some(arrival), path, depth, m), ComponentKeyOf(service.cik, name);
      && w.end == Completed && Onwards(m, w.m) && HasEdge(w.m, arrival.GetKey(), service.cik.GetKey())
      && HasEdge(w.m, service.cik.GetKey(), cik.GetKey()) && HasEdge(w.m, cik.GetKey(), leaf.cik.GetKey())
  {
    var k, cik := service.cik.GetKey(), ComponentKeyOf(service.cik, name);
    assert name in service.components.value;
    var m0 := EdgeStored(LabelsRecorded(m, service.cik), Some(arrival), service.cik);
    StartGoesOn(m, Some(arrival), service.cik);
    ParentOfComponent(service.cik, name);
    EnteringGoesOn(m0, service.cik, cik);
    var m1 := Entering(m0, service.cik, cik);
    LeafPassed(o, universe, d, child, Some(cik), path + [k], depth + 1, m1, leaf, other);
    var m2 := Walk(o, universe, d, child, Some(cik), path + [k], depth + 1, m1).m;
    ComponentPassed(o, universe, d, service.scope, service.cik, [name], path + [k], depth, m0, child, m2);
    NodePassed(o, universe, d, scope, Some(arrival), path, depth, m, service, ResolvedRecorded(m2, cik, d, depth));
  }

  /** A component that asks for such a node. */
  lemma CallerPassed<S(!new)>(o: Oracle<S>, universe: set<Key>, d: Key, scope: S, caller: ComponentInstanceKey, names: seq<string>,
                              path: seq<Key>, depth: nat, m: StateMap, call: S, service: Service<S>, name: string, child: S, leaf: Service<S>, other: string)
    returns (m2: StateMap)
    requires ValidOracle(o, universe) && o.enter(call) == Some(service) && service.components == Some([name])
    requires names != [] && Asks(o, scope, names[0], call) && Plain(names[0]) && names[0] != ROOT
    requires caller.IsService() && caller.GetKey() in m && Blank(m)
    requires Asks(o, service.scope, name, child)
    requires o.enter(child) == Some(leaf) && leaf.components == Some([other]) && o.matches(leaf.scope, other) == NotMatched
    requires service.cik.GetKey() !in path && leaf.cik.GetKey() !in path && leaf.cik.GetKey() != service.cik.GetKey()
    ensures WalkComponents(o, universe, d, scope, caller, names, path, depth, m)
         == WalkComponents(o, universe, d, scope, caller, names[1..], path, depth, m2)
    ensures Onwards(m, m2)
    ensures var cik := ComponentKeyOf(service.cik, name);
      HasEdge(m2, service.cik.GetKey(), cik.GetKey()) && HasEdge(m2, cik.GetKey(), leaf.cik.GetKey())
  {
    var cik := ComponentKeyOf(caller, names[0]);
    var m0 := Entering(m, caller, cik);
    ParentOfComponent(caller, names[0]);
    EnteringGoesOn(m, caller, cik);
    CallPassed(o, universe, d, call, cik, path, depth + 1, m0, service, name, child, leaf, other);
    var m1 := Walk(o, universe, d, call, Some(cik), path, depth + 1, m0).m;
    ComponentPassed(o, universe, d, scope, caller, names, path, depth, m, call, m1);
    m2 := ResolvedRecorded(m1, cik, d, depth);
  }

  // ---- A cycle between instances.

  /** Where a node is: at the start, in the root service, or at a call of one of two other services and in that service. */
  datatype Scope = Start | InRoot | Call(first: bool, matching: bool) | In(first: bool, matching: bool)

  /**
   The components x and y of service r ask for services a and b. Called from r, the component p of each of
   these two asks for the other one, whose own p does not match then: so no walk meets a service twice.
   */
  function CyclicOracle(r: ComponentInstanceKey, a: ComponentInstanceKey, b: ComponentInstanceKey): Oracle<Scope> {
    Oracle(
      (s: Scope) => CyclicEnter(r, a, b, s),
      (s: Scope, name: string) => if s.In? && !s.matching then NotMatched else Matched,
      (s: Scope, name: string) => Some((NilParams, s)),
      (s: Scope, name: string) => CyclicKind(s, name),
      (s: Scope, name: string, t: Scope) => s,
      (s: Scope) => if s.In? then (if s.first then a else b).GetKey() else r.GetKey(),
      (k: Key, name: string) => Template(NilParams, None))
  }

  function CyclicEnter(r: ComponentInstanceKey, a: ComponentInstanceKey, b: ComponentInstanceKey, s: Scope): Option<Service<Scope>> {
    match s
    case Start => Some(Service(r, InRoot, Some(["x", "y"])))
    case Call(first, matching) => Some(Service(if first then a else b, In(first, matching), Some(["p"])))
    case _ => None
  }

  function CyclicKind(s: Scope, name: string): Kind<Scope> {
    match s
    case InRoot => Contract(Call(name == "x", true))
    case In(first, true) => Contract(Call(!first, false))
    case _ => Neither
  }

  /** Three services with different keys. */
  ghost predicate ThreeServices(r: ComponentInstanceKey, a: ComponentInstanceKey, b: ComponentInstanceKey) {
    && r.IsService() && a.IsService() && b.IsService()
    && r.GetKey() != a.GetKey() && r.GetKey() != b.GetKey() && a.GetKey() != b.GetKey()
  }

  lemma ThreeServicesExist()
    ensures ThreeServices(ServiceOf("r"), ServiceOf("a"), ServiceOf("b"))
  {
    ServicesDiffer("r", "a");
    ServicesDiffer("r", "b");
    ServicesDiffer("a", "b");
  }

  function KeysOf(r: ComponentInstanceKey, a: ComponentInstanceKey, b: ComponentInstanceKey): set<Key> {
    {r.GetKey(), a.GetKey(), b.GetKey()}
  }

  lemma CyclicOracleValid(r: ComponentInstanceKey, a: ComponentInstanceKey, b: ComponentInstanceKey)
    requires ThreeServices(r, a, b)
    ensures ValidOracle(CyclicOracle(r, a, b), KeysOf(r, a, b))
  {
    var o := CyclicOracle(r, a, b);
    forall s: Scope, name: string ensures KindFits(o.kind(s, name), o.template(o.at(s), name)) {
    }
  }

  /** There is a cycle of edges between the two services and their components. */
  ghost predicate HasCycle(m: StateMap, a: ComponentInstanceKey, b: ComponentInstanceKey) {
    var p, q := ComponentKeyOf(a, "p").GetKey(), ComponentKeyOf(b, "p").GetKey();
    HasEdge(m, a.GetKey(), p) && HasEdge(m, p, b.GetKey()) && HasEdge(m, b.GetKey(), q) && HasEdge(m, q, a.GetKey())
  }

  /** The walk resolves, no criteria ever fail, and its instances form a cycle. */
  lemma ResolvedCycle(r: ComponentInstanceKey, a: ComponentInstanceKey, b: ComponentInstanceKey, d: Key)
    requires ThreeServices(r, a, b)
    ensures ValidOracle(CyclicOracle(r, a, b), KeysOf(r, a, b))
    ensures var w := ResolveDependency(CyclicOracle(r, a, b), KeysOf(r, a, b), d, Start);
      w.end == Completed && HasCycle(w.m, a, b)
    ensures forall s, name :: CyclicOracle(r, a, b).matches(s, name) != CriteriaError
  {
    CyclicOracleValid(r, a, b);
    var o, u := CyclicOracle(r, a, b), KeysOf(r, a, b);
    var path, m0 := [] + [r.GetKey()], EdgeStored(LabelsRecorded(map[], r), None, r);
    var m1 := CyclePart(o, u, d, r, a, b, path, m0, ["x", "y"], true);
    assert ["x", "y"][1..] == ["y"] && ["y"][1..] == [];
    var m2 := CyclePart(o, u, d, r, a, b, path, m1, ["y"], false);
    NodePassed(o, u, d, Start, None, [], 0, map[], Service(r, InRoot, Some(["x", "y"])), m2);
  }

  /** One component of the root, down to the leaf. */
  lemma CyclePart(o: Oracle<Scope>, u: set<Key>, d: Key, r: ComponentInstanceKey, a: ComponentInstanceKey, b: ComponentInstanceKey,
                  path: seq<Key>, m: StateMap, names: seq<string>, first: bool) returns (m2: StateMap)
    requires ThreeServices(r, a, b) && o == CyclicOracle(r, a, b) && ValidOracle(o, u) && a.GetKey() !in path && b.GetKey() !in path
    requires names != [] && names[0] == (if first then "x" else "y") && r.GetKey() in m && Blank(m)
    ensures WalkComponents(o, u, d, InRoot, r, names, path, 0, m) == WalkComponents(o, u, d, InRoot, r, names[1..], path, 0, m2)
    ensures Onwards(m, m2)
    ensures var (s, t) := if first then (a, b) else (b, a);
      HasEdge(m2, s.GetKey(), ComponentKeyOf(s, "p").GetKey()) && HasEdge(m2, ComponentKeyOf(s, "p").GetKey(), t.GetKey())
  {
    var (s, t) := if first then (a, b) else (b, a);
    assert Asks(o, InRoot, names[0], Call(first, true)) && Asks(o, In(first, true), "p", Call(!first, false));
    m2 := CallerPassed(o, u, d, InRoot, r, names, path, 0, m, Call(first, true), Service(s, In(first, true), Some(["p"])), "p",
                       Call(!first, false), Service(t, In(!first, false), Some(["p"])), "p");
  }

  // ---- A criteria error in a nested service.

  /** A service of which one component is resolved before the criteria of the next one fail. */
  ghost predicate StopsAtSecond<S(!new)>(o: Oracle<S>, service: Service<S>, first: string, second: string) {
    && service.components == Some([first, second])
    && o.matches(service.scope, first) == Matched && o.discover(service.scope, first) == Some((NilParams, service.scope))
    && o.kind(service.scope, first) == Neither && o.matches(service.scope, second) == CriteriaError
  }

  lemma StoppedPassed<S(!new)>(o: Oracle<S>, universe: set<Key>, d: Key, scope: S, arrival: ComponentInstanceKey, path: seq<Key>,
                               depth: nat, m: StateMap, service: Service<S>, first: string, second: string)
    requires ValidOracle(o, universe) && o.enter(scope) == Some(service) && StopsAtSecond(o, service, first, second)
    requires service.cik.GetKey() !in path && arrival.GetKey() in m && Blank(m)
    ensures var w := Walk(o, universe, d, scope, Some(arrival), path, depth, m); w.end == Completed && Onwards(m, w.m)
  {
    var k, cik, s := service.cik.GetKey(), ComponentKeyOf(service.cik, first), service.scope;
    assert first in service.components.value;
    FewerLeft(universe, path, k);
    ParentOfComponent(service.cik, first);
    StartGoesOn(m, Some(arrival), service.cik);
    var m0 := EdgeStored(LabelsRecorded(m, service.cik), Some(arrival), service.cik);
    EnteringGoesOn(m0, service.cik, cik);
    var m1 := Entering(m0, service.cik, cik);
    RecordingGoesOn(m1, cik, d, depth);
    var m2 := ResolvedRecorded(m1, cik, d, depth);
    StoppedRound(o, universe, d, service, first, second, path + [k], depth, m0);
    WalkServiceEnds(o, universe, d, service, Some(arrival), path + [k], depth, m);
  }

  lemma StoppedTour<S(!new)>(o: Oracle<S>, universe: set<Key>, scope: S, path: seq<Key>, service: Service<S>, first: string, second: string)
    requires ValidOracle(o, universe) && o.enter(scope) == Some(service) && StopsAtSecond(o, service, first, second)
    requires service.cik.GetKey() !in path
    ensures TourNode(o, universe, scope, path)
         == Tour([Visit(service.cik.GetKey(), [(service.scope, first), (service.scope, second)])], service.scope)
  {
    var s, path' := service.scope, path + [service.cik.GetKey()];
    FewerLeft(universe, path, service.cik.GetKey());
    assert [first, second][1..] == [second];
    assert TourComponent(o, universe, s, first, path') == Tour([], s);
    assert TourComponents(o, universe, s, [second], path') == Round([(s, second)], [], s);
    assert [(s, first)] + [(s, second)] == [(s, first), (s, second)];
    assert TourComponents(o, universe, s, [first, second], path') == Round([(s, first), (s, second)], [], s);
  }

  lemma StoppedRound<S(!new)>(o: Oracle<S>, universe: set<Key>, d: Key, service: Service<S>, first: string, second: string,
                              path: seq<Key>, depth: nat, m: StateMap)
    requires ValidOracle(o, universe) && StopsAtSecond(o, service, first, second)
    requires var cik := ComponentKeyOf(service.cik, first);
      AddParams(EntryOf(LabelsRecorded(EdgeStored(m, Some(service.cik), cik), cik), cik).discovery, NilParams).Some?
    ensures var cik := ComponentKeyOf(service.cik, first);
      WalkComponents(o, universe, d, service.scope, service.cik, service.components.value, path, depth, m)
        == Walked(Stopped, ResolvedRecorded(Entering(m, service.cik, cik), cik, d, depth), service.scope)
  {
    var cik, s := ComponentKeyOf(service.cik, first), service.scope;
    var m0 := LabelsRecorded(EdgeStored(m, Some(service.cik), cik), cik);
    assert [first, second][1..] == [second];
    assert WalkComponent(o, universe, d, s, first, cik, path, depth, m0) == Walked(Completed, Entering(m, service.cik, cik), s);
  }

  /** The component x of service r asks for service a, of which p resolves and the criteria of q fail. */
  function NestedErrorOracle(r: ComponentInstanceKey, a: ComponentInstanceKey): Oracle<Scope> {
    Oracle(
      (s: Scope) => NestedErrorEnter(r, a, s),
      (s: Scope, name: string) => if s.In? && name == "q" then CriteriaError else Matched,
      (s: Scope, name: string) => Some((NilParams, s)),
      (s: Scope, name: string) => if s.InRoot? then Contract(Call(true, true)) else Neither,
      (s: Scope, name: string, t: Scope) => s,
      (s: Scope) => (if s.In? then a else r).GetKey(),
      (k: Key, name: string) => Template(NilParams, None))
  }

  function NestedErrorEnter(r: ComponentInstanceKey, a: ComponentInstanceKey, s: Scope): Option<Service<Scope>> {
    match s
    case Start => Some(Service(r, InRoot, Some(["x"])))
    case Call(_, _) => Some(Service(a, In(true, true), Some(["p", "q"])))
    case _ => None
  }

  lemma NestedErrorOracleValid(r: ComponentInstanceKey, a: ComponentInstanceKey)
    requires r.IsService() && a.IsService()
    ensures ValidOracle(NestedErrorOracle(r, a), {r.GetKey(), a.GetKey()})
  {
    var o := NestedErrorOracle(r, a);
    forall s: Scope, name: string ensures KindFits(o.kind(s, name), o.template(o.at(s), name)) {
    }
  }

  /**
   The walk ends as if the dependency were resolved, and the root service is held. But the resolution is not
   complete: the consumers are not closed under parents, since service a is not held and its component is.
   */
  lemma NestedErrorBreaksClosure(r: ComponentInstanceKey, a: ComponentInstanceKey, d: Key)
    requires r.IsService() && a.IsService() && r.GetKey() != a.GetKey()
    ensures var o, u := NestedErrorOracle(r, a), {r.GetKey(), a.GetKey()};
      && ValidOracle(o, u)
      && var w := ResolveDependency(o, u, d, Start);
      w.end == Completed && Holds(w.m, r.GetKey(), d) && !ParentClosed(w.m) && !Complete(w.m, d, r.GetKey())
  {
    NestedErrorOracleValid(r, a);
    var o, u := NestedErrorOracle(r, a), {r.GetKey(), a.GetKey()};
    var root, service := Service(r, InRoot, Some(["x"])), Service(a, In(true, true), Some(["p", "q"]));
    NestedErrorWalk(o, u, d, root, service, Start, Call(true, true));
    NestedErrorVisits(o, u, root, service, Start, Call(true, true));
    RootRecordedIffNoCriteriaError(o, u, d, Start);
    ParentClosedIff(o, u, d, Start);
    var visits := Visits(o, u, Start);
    assert visits[0] in visits;
    assert (In(true, true), "p") in visits[0].asked && (In(true, true), "q") in visits[0].asked;
    assert !HasCleanVisit(o, visits, a.GetKey());
    if Complete(ResolveDependency(o, u, d, Start).m, d, r.GetKey()) {
      CompleteIsClosed(ResolveDependency(o, u, d, Start).m, d, r.GetKey());
    }
  }

  lemma NestedErrorWalk<S(!new)>(o: Oracle<S>, u: set<Key>, d: Key, root: Service<S>, service: Service<S>, start: S, call: S)
    requires ValidOracle(o, u) && o.enter(start) == Some(root) && root.components == Some(["x"]) && Asks(o, root.scope, "x", call)
    requires o.enter(call) == Some(service) && StopsAtSecond(o, service, "p", "q") && service.cik.GetKey() != root.cik.GetKey()
    ensures ResolveDependency(o, u, d, start).end == Completed
  {
    var r, names := root.cik, ["x"];
    var path, m := [] + [r.GetKey()], EdgeStored(LabelsRecorded(map[], r), None, r);
    var m2 := StoppedCallerPassed(o, u, d, root.scope, r, names, path, 0, m, call, service, "p", "q");
    assert names[1..] == [];
    NodePassed(o, u, d, start, None, [], 0, map[], root, m2);
  }

  lemma StoppedCallerPassed<S(!new)>(o: Oracle<S>, universe: set<Key>, d: Key, scope: S, caller: ComponentInstanceKey, names: seq<string>,
                                     path: seq<Key>, depth: nat, m: StateMap, call: S, service: Service<S>, first: string, second: string)
    returns (m2: StateMap)
    requires ValidOracle(o, universe) && o.enter(call) == Some(service) && StopsAtSecond(o, service, first, second)
    requires names != [] && Asks(o, scope, names[0], call) && Plain(names[0]) && names[0] != ROOT
    requires caller.IsService() && caller.GetKey() in m && Blank(m) && service.cik.GetKey() !in path
    ensures WalkComponents(o, universe, d, scope, caller, names, path, depth, m)
         == WalkComponents(o, universe, d, scope, caller, names[1..], path, depth, m2)
    ensures Onwards(m, m2)
  {
    var cik := ComponentKeyOf(caller, names[0]);
    var m0 := Entering(m, caller, cik);
    ParentOfComponent(caller, names[0]);
    EnteringGoesOn(m, caller, cik);
    StoppedPassed(o, universe, d, call, cik, path, depth + 1, m0, service, first, second);
    var m1 := Walk(o, universe, d, call, Some(cik), path, depth + 1, m0).m;
    ComponentPassed(o, universe, d, scope, caller, names, path, depth, m, call, m1);
    m2 := ResolvedRecorded(m1, cik, d, depth);
  }

  lemma NestedErrorVisits<S(!new)>(o: Oracle<S>, u: set<Key>, root: Service<S>, service: Service<S>, start: S, call: S)
    requires ValidOracle(o, u) && o.enter(start) == Some(root) && root.components == Some(["x"]) && Asks(o, root.scope, "x", call)
    requires o.enter(call) == Some(service) && StopsAtSecond(o, service, "p", "q") && service.cik.GetKey() != root.cik.GetKey()
    ensures Visits(o, u, start)
         == [Visit(service.cik.GetKey(), [(service.scope, "p"), (service.scope, "q")]), Visit(root.cik.GetKey(), [(root.scope, "x")])]
  {
    var path := [] + [root.cik.GetKey()];
    FewerLeft(u, [], root.cik.GetKey());
    StoppedTour(o, u, call, path, service, "p", "q");
    assert TourComponents(o, u, root.scope, [], path) == Round([], [], root.scope);
    assert ["x"][1..] == [];
    var t := TourComponent(o, u, root.scope, "x", path);
    assert t == TourKind(o, u, root.scope, "x", path);
    assert t == Tour(TourNode(o, u, call, path).visits, root.scope);
    assert [(root.scope, "x")] + [] == [(root.scope, "x")] && t.visits + [] == t.visits;
    assert TourComponents(o, u, root.scope, ["x"], path) == Round([(root.scope, "x")], t.visits, root.scope);
  }
}

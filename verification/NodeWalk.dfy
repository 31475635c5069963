/**
 Resolving one dependency: the recursive walk from a contract to a service, to its components, and on to
 the contracts these components consume.

 What the walk looks up or evaluates (users, contracts, contexts, criteria, labels, rules, templates) is
 given by an oracle over scopes. A scope stands for all that these answers may depend on: namespace,
 contract, labels and discovery tree.
 */
module NodeWalk {
  import opened Prelude
  import opened ComponentKey
  import opened Instances
  import opened Resolution

  /** A service found for a scope: its key, the scope after label transforms, its components in order unless sorting fails. */
  datatype Service<+S> = Service(cik: ComponentInstanceKey, scope: S, components: Option<seq<string>>)

  datatype Match = Matched | NotMatched | CriteriaError

  datatype Kind<+S> =
    | Code(params: Option<Params>)   // evaluated code parameters, None on an error
    | Contract(child: S)             // the scope of the child node
    | Neither

  /** What the policy says about a component: its discovery parameters, and its code parameters if it is code, as templates. */
  datatype Template = Template(discovery: Params, code: Option<Params>)

  datatype Oracle<!S> = Oracle(
    enter: S -> Option<Service<S>>,                 // everything up to the service key, None on any error
    matches: (S, string) -> Match,                  // the criteria of a component
    discover: (S, string) -> Option<(Params, S)>,   // discovery parameters, and the scope that announces them
    kind: (S, string) -> Kind<S>,
    back: (S, string, S) -> S,                      // the scope after the walk of a child, which shares the discovery tree
    at: S -> Key,                                   // the service that a scope inside a service belongs to
    template: (Key, string) -> Template             // of a component of a service
  )

  /** Evaluating a template keeps its top-level keys, and nil stays nil. */
  predicate Evaluates(template: Params, p: Params) {
    p.NilParams? == template.NilParams? && p.Empty() == template.Empty()
  }

  predicate KindFits<S>(k: Kind<S>, t: Template) {
    && (k.Code? <==> t.code.Some?)
    && (k.Code? && k.params.Some? ==> Evaluates(t.code.value, k.params.value))
  }

  /** What policy validation and the policy's finiteness give: proper names, finitely many service keys. */
  ghost predicate ValidServices<S(!new)>(o: Oracle<S>, universe: set<Key>) {
    && (forall s: S :: o.enter(s).Some? ==>
          o.enter(s).value.cik.IsService() && o.enter(s).value.cik.GetKey() in universe)
    && (forall s: S :: o.enter(s).Some? && o.enter(s).value.components.Some? ==>
          forall name :: name in o.enter(s).value.components.value ==> Plain(name) && name != ROOT && name != "")
  }

  /** A scope stays with its service, and what is evaluated in it comes from the templates of that service. */
  ghost predicate ValidScopes<S(!new)>(o: Oracle<S>) {
    && (forall s: S :: o.enter(s).Some? ==> o.at(o.enter(s).value.scope) == o.enter(s).value.cik.GetKey())
    && (forall s: S, name :: o.discover(s, name).Some? ==>
          o.at(o.discover(s, name).value.1) == o.at(s)
          && Evaluates(o.template(o.at(s), name).discovery, o.discover(s, name).value.0))
    && (forall s: S, name, t: S :: o.at(o.back(s, name, t)) == o.at(s))
    && (forall s: S, name :: KindFits(o.kind(s, name), o.template(o.at(s), name)))
  }

  ghost predicate ValidOracle<S(!new)>(o: Oracle<S>, universe: set<Key>) {
    ValidServices(o, universe) && ValidScopes(o)
  }

  function ComponentKeyOf(service: ComponentInstanceKey, name: string): ComponentInstanceKey {
    service.(componentName := name)
  }

  /** How a walk or a part of it ends: with an error, or, because of a criteria error, early and without one. */
  datatype End = Failed | Stopped | Completed

  datatype Walked<+S> = Walked(end: End, m: StateMap, scope: S)

  ghost function Left(universe: set<Key>, path: seq<Key>): nat {
    |universe - set k | k in path|
  }

  lemma FewerLeft(universe: set<Key>, path: seq<Key>, k: Key)
    requires k in universe && k !in path
    ensures Left(universe, path + [k]) < Left(universe, path)
  {
    var a, b := set x | x in path, set x | x in path + [k];
    assert b == a + {k};
    assert universe - b == (universe - a) - {k};
  }

  /** resolveNode: the walk of a node. Termination: the path has no repetitions. */
  ghost function Walk<S(!new)>(o: Oracle<S>, universe: set<Key>, d: Key, scope: S, arrival: Option<ComponentInstanceKey>,
                               path: seq<Key>, depth: nat, m: StateMap): (w: Walked<S>)
    requires ValidOracle(o, universe)
    ensures w.end != Stopped
    decreases Left(universe, path), 0, 0
  {
    match o.enter(scope)
    case None => Walked(Failed, m, scope)
    case Some(service) =>
      var serviceKey := service.cik.GetKey();
      if serviceKey in path then Walked(Failed, m, scope)
      else
        FewerLeft(universe, path, serviceKey);
        WalkService(o, universe, d, service, arrival, path + [serviceKey], depth, m)
  }

  /** The rest of resolveNode, once the service is known not to be on the path. */
  ghost function WalkService<S(!new)>(o: Oracle<S>, universe: set<Key>, d: Key, service: Service<S>, arrival: Option<ComponentInstanceKey>,
                                      path: seq<Key>, depth: nat, m: StateMap): (w: Walked<S>)
    requires ValidOracle(o, universe)
    ensures w.end != Stopped
    decreases Left(universe, path), if service.components.Some? then |service.components.value| + 1 else 0, 0
  {
    var m1 := EdgeStored(LabelsRecorded(m, service.cik), arrival, service.cik);
    match service.components
    case None => Walked(Failed, m1, service.scope)
    case Some(components) =>
      var w := WalkComponents(o, universe, d, service.scope, service.cik, components, path, depth, m1);
      match w.end
      case Completed => w.(m := ResolvedRecorded(w.m, service.cik, d, depth))
      case Stopped => w.(end := Completed)
      case Failed => w
  }

  lemma WalkServiceEnds<S(!new)>(o: Oracle<S>, universe: set<Key>, d: Key, service: Service<S>, arrival: Option<ComponentInstanceKey>,
                                 path: seq<Key>, depth: nat, m: StateMap)
    requires ValidOracle(o, universe) && service.components.Some?
    ensures var w := WalkService(o, universe, d, service, arrival, path, depth, m);
      var c := WalkComponents(o, universe, d, service.scope, service.cik, service.components.value, path, depth,
                              EdgeStored(LabelsRecorded(m, service.cik), arrival, service.cik));
      && w.scope == c.scope && (w.end == Failed <==> c.end == Failed)
      && w.m == if c.end == Completed then ResolvedRecorded(c.m, service.cik, d, depth) else c.m
  {
  }

  /** The loop over the components of a service. A criteria error ends it, and the error itself is lost. */
  ghost function WalkComponents<S(!new)>(o: Oracle<S>, universe: set<Key>, d: Key, scope: S, service: ComponentInstanceKey,
                                         components: seq<string>, path: seq<Key>, depth: nat, m: StateMap): Walked<S>
    requires ValidOracle(o, universe)
    decreases Left(universe, path), |components|, 0
  {
    if components == [] then Walked(Completed, m, scope)
    else
      var name, rest := components[0], components[1..];
      match o.matches(scope, name)
      case CriteriaError => Walked(Stopped, m, scope)
      case NotMatched => WalkComponents(o, universe, d, scope, service, rest, path, depth, m)
      case Matched =>
        var cik := ComponentKeyOf(service, name);
        var m1 := LabelsRecorded(EdgeStored(m, Some(service), cik), cik);
        var w := WalkComponent(o, universe, d, scope, name, cik, path, depth, m1);
        if w.end != Completed then w
        else WalkComponents(o, universe, d, w.scope, service, rest, path, depth, ResolvedRecorded(w.m, cik, d, depth))
  }

  /** One component: discovery parameters first. */
  ghost function WalkComponent<S(!new)>(o: Oracle<S>, universe: set<Key>, d: Key, scope: S, name: string,
                                        cik: ComponentInstanceKey, path: seq<Key>, depth: nat, m: StateMap): Walked<S>
    requires ValidOracle(o, universe)
    decreases Left(universe, path), 0, 2
  {
    match o.discover(scope, name)
    case None => Walked(Failed, m, scope)
    case Some((params, scope1)) =>
      var m1 := DiscoveryRecorded(m, cik, params);
      if AddParams(EntryOf(m, cik).discovery, params).None? then Walked(Failed, m1, scope)
      else WalkKind(o, universe, d, scope1, name, cik, path, depth, m1)
  }

  /** Then code parameters, or a child node. */
  ghost function WalkKind<S(!new)>(o: Oracle<S>, universe: set<Key>, d: Key, scope: S, name: string,
                                   cik: ComponentInstanceKey, path: seq<Key>, depth: nat, m: StateMap): Walked<S>
    requires ValidOracle(o, universe)
    decreases Left(universe, path), 0, 1
  {
    match o.kind(scope, name)
    case Code(None) => Walked(Failed, m, scope)
    case Code(Some(params)) =>
      Walked(if AddParams(EntryOf(m, cik).codeParams, params).Some? then Completed else Failed, CodeRecorded(m, cik, params), scope)
    case Contract(child) =>
      var w := Walk(o, universe, d, child, Some(cik), path, depth + 1, m);
      w.(scope := o.back(scope, name, w.scope))
    case Neither => Walked(Completed, m, scope)
  }

  // ---- What the walk visits, from the oracle alone.

  /** A visit to a service: the components whose criteria it evaluates, each in the scope it evaluates them in. */
  datatype Visit<+S> = Visit(service: Key, asked: seq<(S, string)>)

  /** The visits made from a node or a component on, in order of completion, and the scope afterwards. */
  datatype Tour<+S> = Tour(visits: seq<Visit<S>>, scope: S)

  /** The same for the loop over components, and the components asked about. */
  datatype Round<+S> = Round(asked: seq<(S, string)>, visits: seq<Visit<S>>, scope: S)

  ghost function TourNode<S(!new)>(o: Oracle<S>, universe: set<Key>, scope: S, path: seq<Key>): Tour<S>
    requires ValidOracle(o, universe)
    decreases Left(universe, path), 0, 0
  {
    if o.enter(scope).None? || o.enter(scope).value.cik.GetKey() in path then Tour([], scope)
    else
      var service := o.enter(scope).value;
      FewerLeft(universe, path, service.cik.GetKey());
      if service.components.None? then Tour([], service.scope)
      else
        var r := TourComponents(o, universe, service.scope, service.components.value, path + [service.cik.GetKey()]);
        Tour(r.visits + [Visit(service.cik.GetKey(), r.asked)], r.scope)
  }

  /** The loop goes on until a criteria error. */
  ghost function TourComponents<S(!new)>(o: Oracle<S>, universe: set<Key>, scope: S, components: seq<string>, path: seq<Key>): Round<S>
    requires ValidOracle(o, universe)
    decreases Left(universe, path), |components| + 1, 0
  {
    if components == [] then Round([], [], scope)
    else
      var name, rest := components[0], components[1..];
      match o.matches(scope, name)
      case CriteriaError => Round([(scope, name)], [], scope)
      case NotMatched =>
        var r := TourComponents(o, universe, scope, rest, path);
        r.(asked := [(scope, name)] + r.asked)
      case Matched =>
        var t := TourComponent(o, universe, scope, name, path);
        var r := TourComponents(o, universe, t.scope, rest, path);
        Round([(scope, name)] + r.asked, t.visits + r.visits, r.scope)
  }

  ghost function TourComponent<S(!new)>(o: Oracle<S>, universe: set<Key>, scope: S, name: string, path: seq<Key>): Tour<S>
    requires ValidOracle(o, universe)
    decreases Left(universe, path), 0, 2
  {
    if o.discover(scope, name).None? then Tour([], scope)
    else TourKind(o, universe, o.discover(scope, name).value.1, name, path)
  }

  ghost function TourKind<S(!new)>(o: Oracle<S>, universe: set<Key>, scope: S, name: string, path: seq<Key>): Tour<S>
    requires ValidOracle(o, universe)
    decreases Left(universe, path), 0, 1
  {
    match o.kind(scope, name)
    case Contract(child) =>
      var t := TourNode(o, universe, child, path);
      Tour(t.visits, o.back(scope, name, t.scope))
    case _ => Tour([], scope)
  }

  /** The visits of a dependency with the given scope. */
  ghost function Visits<S(!new)>(o: Oracle<S>, universe: set<Key>, scope: S): seq<Visit<S>>
    requires ValidOracle(o, universe)
  {
    TourNode(o, universe, scope, []).visits
  }

  /** No criteria error among the components asked about. */
  ghost predicate NoCriteriaError<S(!new)>(o: Oracle<S>, asked: seq<(S, string)>) {
    forall p :: p in asked ==> o.matches(p.0, p.1) != CriteriaError
  }

  ghost predicate SomeMatch<S(!new)>(o: Oracle<S>, asked: seq<(S, string)>) {
    exists p :: p in asked && o.matches(p.0, p.1) == Matched
  }

  ghost predicate HasCleanVisit<S(!new)>(o: Oracle<S>, visits: seq<Visit<S>>, service: Key) {
    exists v :: v in visits && v.service == service && NoCriteriaError(o, v.asked)
  }

  /** Each visited service has a visit without a criteria error. */
  ghost predicate EachServiceClean<S(!new)>(o: Oracle<S>, visits: seq<Visit<S>>) {
    forall v :: v in visits ==> HasCleanVisit(o, visits, v.service)
  }

  /** The same for those services of which some component has matched. */
  ghost predicate EachParentClean<S(!new)>(o: Oracle<S>, visits: seq<Visit<S>>) {
    forall v :: v in visits && SomeMatch(o, v.asked) ==> HasCleanVisit(o, visits, v.service)
  }

  /** The services visited; those with a visit without a criteria error; those with a component that matched. */
  datatype Log = Log(seen: set<Key>, clean: set<Key>, parents: set<Key>)

  ghost function LogOf<S(!new)>(o: Oracle<S>, visits: seq<Visit<S>>): Log {
    Log(set v | v in visits :: v.service,
        set v | v in visits && NoCriteriaError(o, v.asked) :: v.service,
        set v | v in visits && SomeMatch(o, v.asked) :: v.service)
  }

  ghost function Add(a: Log, b: Log): Log {
    Log(a.seen + b.seen, a.clean + b.clean, a.parents + b.parents)
  }

  const NOTHING := Log({}, {}, {})

  lemma AddNothing(log: Log)
    ensures Add(log, NOTHING) == log && Add(NOTHING, log) == log
  {
  }

  lemma LogOfNone<S(!new)>(o: Oracle<S>)
    ensures LogOf(o, []) == NOTHING
  {
  }

  lemma LogOfBoth<S(!new)>(o: Oracle<S>, a: seq<Visit<S>>, b: seq<Visit<S>>)
    ensures LogOf(o, a + b) == Add(LogOf(o, a), LogOf(o, b))
  {
    var c, l := a + b, Add(LogOf(o, a), LogOf(o, b));
    forall k ensures k in LogOf(o, c).seen <==> k in l.seen {
      if v :| v in a && v.service == k { assert v in c; }
      if v :| v in b && v.service == k { assert v in c; }
    }
    forall k ensures k in LogOf(o, c).clean <==> k in l.clean {
      if v :| v in a && NoCriteriaError(o, v.asked) && v.service == k { assert v in c; }
      if v :| v in b && NoCriteriaError(o, v.asked) && v.service == k { assert v in c; }
    }
    forall k ensures k in LogOf(o, c).parents <==> k in l.parents {
      if v :| v in a && SomeMatch(o, v.asked) && v.service == k { assert v in c; }
      if v :| v in b && SomeMatch(o, v.asked) && v.service == k { assert v in c; }
    }
  }

  lemma LogOfOne<S(!new)>(o: Oracle<S>, v: Visit<S>)
    ensures LogOf(o, [v]) == Log({v.service}, if NoCriteriaError(o, v.asked) then {v.service} else {},
                                 if SomeMatch(o, v.asked) then {v.service} else {})
  {
    assert v in [v];
  }

  lemma AskedFirst<S(!new)>(o: Oracle<S>, p: (S, string), rest: seq<(S, string)>)
    ensures NoCriteriaError(o, [p] + rest) <==> o.matches(p.0, p.1) != CriteriaError && NoCriteriaError(o, rest)
    ensures SomeMatch(o, [p] + rest) <==> o.matches(p.0, p.1) == Matched || SomeMatch(o, rest)
  {
    var asked := [p] + rest;
    assert forall q :: q in asked <==> q == p || q in rest;
    assert p in asked;
  }

  // ---- What the walk leaves behind.

  /** A chain of edges. */
  ghost predicate Trail(m: StateMap, from: Key, trail: seq<Key>, to: Key) {
    && trail != [] && trail[0] == from && trail[|trail| - 1] == to
    && (forall i :: 0 <= i < |trail| - 1 ==> trail[i] in m && trail[i + 1] in m[trail[i]].edgesOut)
  }

  ghost predicate ReachedFrom(m: StateMap, from: Key, to: Key) {
    exists trail :: Trail(m, from, trail, to)
  }

  predicate EntryFits(m: StateMap, d: Key, root: Key, k: Key)
    requires k in m
  {
    && m[k].cik.GetKey() == k && Plain(m[k].cik.componentName) && !m[k].error
    && m[k].dependencyKeys.Keys <= {d}
    && (d in m[k].dependencyKeys && m[k].dependencyKeys[d] == 0 && m[k].cik.IsService() ==> k == root)
    && m[k].edgesOut <= m.Keys
    && (!m[k].cik.IsService() ==> ParentKey(m[k]) in m && k in m[ParentKey(m[k])].edgesOut)
  }

  /**
   Who holds an instance in the middle of a walk, while the instances in `open` are being resolved: each
   component is held, and exactly the services with a visit without a criteria error are.
   */
  predicate EntryHeld(x: Instance, k: Key, d: Key, open: set<Key>, log: Log) {
    if x.cik.IsService() then (d in x.dependencyKeys <==> k in log.clean) && (k in open || k in log.seen)
    else (k in open || d in x.dependencyKeys) && ParentKey(x) in log.parents
  }

  ghost predicate HasComponent(m: StateMap, service: Key) {
    exists k :: k in m && !m[k].cik.IsService() && ParentKey(m[k]) == service
  }

  ghost predicate LogFits(m: StateMap, log: Log) {
    && log.clean <= log.seen
    && (forall k :: k in log.seen ==> k in m && m[k].cik.IsService())
    && (forall k {:trigger HasComponent(m, k)} :: k in log.parents ==> HasComponent(m, k))
  }

  ghost predicate AllFit(m: StateMap, d: Key, root: Key) {
    forall k {:trigger EntryFits(m, d, root, k)} :: k in m ==> EntryFits(m, d, root, k)
  }

  ghost predicate AllHeld(m: StateMap, d: Key, open: set<Key>, log: Log) {
    forall k {:trigger EntryHeld(m[k], k, d, open, log)} :: k in m ==> EntryHeld(m[k], k, d, open, log)
  }

  ghost predicate AllReached(m: StateMap, root: Key) {
    forall k {:trigger ReachedFrom(m, root, k)} :: k in m ==> ReachedFrom(m, root, k)
  }

  ghost predicate GoodState(m: StateMap, d: Key, root: Key, open: set<Key>, log: Log) {
    AllFit(m, d, root) && AllHeld(m, d, open, log) && AllReached(m, root) && LogFits(m, log)
  }

  /** Entries are never removed, and keep their edges. */
  ghost predicate Grows(m: StateMap, m': StateMap) {
    forall k :: k in m ==> k in m' && m[k].cik == m'[k].cik && m[k].edgesOut <= m'[k].edgesOut
  }

  lemma GrowsOn(m: StateMap, m1: StateMap, m2: StateMap)
    requires Grows(m, m1) && Grows(m1, m2)
    ensures Grows(m, m2)
  {
  }

  lemma ReachedStays(m: StateMap, m': StateMap, from: Key, to: Key)
    requires Grows(m, m') && ReachedFrom(m, from, to)
    ensures ReachedFrom(m', from, to)
  {
    var trail :| Trail(m, from, trail, to);
    assert Trail(m', from, trail, to);
  }

  lemma ReachedNext(m: StateMap, from: Key, k: Key, to: Key)
    requires ReachedFrom(m, from, k) && k in m && to in m[k].edgesOut
    ensures ReachedFrom(m, from, to)
  {
    var trail :| Trail(m, from, trail, k);
    var longer := trail + [to];
    forall i | 0 <= i < |longer| - 1 ensures longer[i] in m && longer[i + 1] in m[longer[i]].edgesOut {
      assert longer[i] == trail[i];
    }
    assert Trail(m, from, longer, to);
  }

  lemma AllReachedStay(m: StateMap, m': StateMap, root: Key)
    requires Grows(m, m') && AllReached(m, root)
    ensures forall k {:trigger ReachedFrom(m', root, k)} :: k in m ==> ReachedFrom(m', root, k)
  {
    forall k | k in m ensures ReachedFrom(m', root, k) {
      ReachedStays(m, m', root, k);
    }
  }

  lemma LogStillFits(m: StateMap, m': StateMap, log: Log)
    requires Grows(m, m') && LogFits(m, log)
    ensures LogFits(m', log)
  {
    forall s | s in log.parents ensures HasComponent(m', s) {
      assert HasComponent(m, s);
      var k :| k in m && !m[k].cik.IsService() && ParentKey(m[k]) == s;
      assert k in m' && m'[k].cik == m[k].cik;
    }
  }

  /** An entry whose edges may have grown still fits. */
  lemma StillFits(m: StateMap, m': StateMap, d: Key, root: Key, k: Key)
    requires Grows(m, m') && k in m && EntryFits(m, d, root, k)
    requires m'[k].dependencyKeys == m[k].dependencyKeys && m'[k].error == m[k].error && m'[k].edgesOut <= m'.Keys
    ensures EntryFits(m', d, root, k)
  {
  }

  /** One entry changes, others stay as they are. */
  ghost predicate OnlyChanged(m: StateMap, m': StateMap, k: Key) {
    k in m && m'.Keys == m.Keys && forall i :: i in m && i != k ==> m'[i] == m[i]
  }

  lemma OthersFit(m: StateMap, m': StateMap, d: Key, root: Key, k: Key)
    requires AllFit(m, d, root) && Grows(m, m') && OnlyChanged(m, m', k) && EntryFits(m', d, root, k)
    ensures AllFit(m', d, root)
  {
    forall i | i in m' ensures EntryFits(m', d, root, i) {
      if i != k {
        assert EntryFits(m, d, root, i);
        StillFits(m, m', d, root, i);
      }
    }
  }

  /** A change of one entry that leaves its key and its consumers alone. */
  lemma EntryUpdated(m: StateMap, m': StateMap, d: Key, root: Key, open: set<Key>, log: Log, k: Key)
    requires GoodState(m, d, root, open, log) && OnlyChanged(m, m', k)
    requires m'[k].cik == m[k].cik && m[k].edgesOut <= m'[k].edgesOut <= m.Keys
    requires m'[k].dependencyKeys == m[k].dependencyKeys && !m'[k].error
    ensures GoodState(m', d, root, open, log) && Grows(m, m')
  {
    assert EntryFits(m, d, root, k);
    StillFits(m, m', d, root, k);
    OthersFit(m, m', d, root, k);
    AllReachedStay(m, m', root);
    LogStillFits(m, m', log);
    assert EntryHeld(m[k], k, d, open, log);
    OthersHeld(m, m', d, open, open, log, log, k);
  }

  lemma OthersHeld(m: StateMap, m': StateMap, d: Key, open: set<Key>, open': set<Key>, log: Log, log': Log, k: Key)
    requires AllHeld(m, d, open, log) && OnlyChanged(m, m', k) && EntryHeld(m'[k], k, d, open', log')
    requires open <= open' + {k} && log.seen <= log'.seen && log.parents <= log'.parents
    requires log.clean <= log'.clean <= log.clean + {k}
    ensures AllHeld(m', d, open', log')
  {
    forall i | i in m' ensures EntryHeld(m'[i], i, d, open', log') {
      if i != k {
        assert EntryHeld(m[i], i, d, open, log);
      }
    }
  }

  /** The dependency is recorded for an instance, which is then no longer open. */
  lemma Recorded(m: StateMap, d: Key, root: Key, open: set<Key>, log: Log, log': Log, cik: ComponentInstanceKey, depth: nat)
    requires GoodState(m, d, root, open + {cik.GetKey()}, log) && cik.GetKey() in m && Plain(cik.componentName)
    requires depth == 0 && cik.IsService() ==> cik.GetKey() == root
    requires log' == if cik.IsService() then Add(log, Log({cik.GetKey()}, {cik.GetKey()}, {})) else log
    ensures GoodState(ResolvedRecorded(m, cik, d, depth), d, root, open, log')
    ensures Grows(m, ResolvedRecorded(m, cik, d, depth))
  {
    var m', k := ResolvedRecorded(m, cik, d, depth), cik.GetKey();
    assert EntryFits(m, d, root, k) && EntryHeld(m[k], k, d, open + {k}, log);
    ParentDetermined(m[k].cik, cik);
    assert EntryFits(m', d, root, k);
    OthersFit(m, m', d, root, k);
    AllReachedStay(m, m', root);
    LogStillFits(m, m', log);
    OthersHeld(m, m', d, open + {k}, open, log, log', k);
  }

  /** A service is left without being recorded. */
  lemma Passed(m: StateMap, d: Key, root: Key, open: set<Key>, log: Log, service: ComponentInstanceKey)
    requires GoodState(m, d, root, open + {service.GetKey()}, log) && service.GetKey() in m && service.IsService()
    ensures GoodState(m, d, root, open, Add(log, Log({service.GetKey()}, {}, {})))
  {
    var k := service.GetKey();
    assert EntryFits(m, d, root, k) && EntryHeld(m[k], k, d, open + {k}, log);
    ParentDetermined(m[k].cik, service);
    OthersHeld(m, m, d, open + {k}, open, log, Add(log, Log({k}, {}, {})), k);
  }

  /** More instances are open. */
  lemma Opened(m: StateMap, d: Key, root: Key, open: set<Key>, log: Log, k: Key)
    requires GoodState(m, d, root, open, log)
    ensures GoodState(m, d, root, open + {k}, log)
  {
    forall i | i in m ensures EntryHeld(m[i], i, d, open + {k}, log) {
      assert EntryHeld(m[i], i, d, open, log);
    }
  }

  /** A component instance of the service is there. */
  lemma ParentLogged(m: StateMap, d: Key, root: Key, open: set<Key>, log: Log, k: Key)
    requires GoodState(m, d, root, open, log) && HasComponent(m, k)
    ensures GoodState(m, d, root, open, Add(log, Log({}, {}, {k})))
  {
    var log' := Add(log, Log({}, {}, {k}));
    forall i | i in m ensures EntryHeld(m[i], i, d, open, log') {
      assert EntryHeld(m[i], i, d, open, log);
    }
  }

  /** A new entry, with an edge to it from entry k. */
  lemma EntryAdded(m: StateMap, m': StateMap, d: Key, root: Key, open: set<Key>, log: Log, log': Log, k: Key, to: Key)
    requires GoodState(m, d, root, open, log) && k in m && to !in m && Grows(m, m') && m'.Keys == m.Keys + {to}
    requires m'[k] == WithEdgeOut(m[k], to) && EntryFits(m', d, root, to) && EntryHeld(m'[to], to, d, open + {to}, log')
    requires forall i :: i in m && i != k ==> m'[i] == m[i]
    requires log' == log || (HasComponent(m', k) && log' == Add(log, Log({}, {}, {k})))
    ensures GoodState(m', d, root, open + {to}, log')
  {
    AllReachedStay(m, m', root);
    ReachedNext(m', root, k, to);
    LogStillFits(m, m', log);
    EntriesStillFit(m, m', d, root, k, to);
    EntriesStillHeld(m, m', d, open, log, log', k, to);
  }

  lemma EntriesStillHeld(m: StateMap, m': StateMap, d: Key, open: set<Key>, log: Log, log': Log, k: Key, to: Key)
    requires AllHeld(m, d, open, log) && k in m && m'.Keys == m.Keys + {to}
    requires m'[k] == WithEdgeOut(m[k], to) && EntryHeld(m'[to], to, d, open + {to}, log')
    requires forall i :: i in m && i != k && i != to ==> m'[i] == m[i]
    requires log.seen <= log'.seen && log.clean == log'.clean && log.parents <= log'.parents
    ensures AllHeld(m', d, open + {to}, log')
  {
    forall i | i in m' ensures EntryHeld(m'[i], i, d, open + {to}, log') {
      if i != to {
        assert EntryHeld(m[i], i, d, open, log);
      }
    }
  }

  lemma EntriesStillFit(m: StateMap, m': StateMap, d: Key, root: Key, k: Key, to: Key)
    requires AllFit(m, d, root) && k in m && Grows(m, m') && m'.Keys == m.Keys + {to}
    requires m'[k] == WithEdgeOut(m[k], to) && EntryFits(m', d, root, to)
    requires forall i :: i in m && i != k && i != to ==> m'[i] == m[i]
    ensures AllFit(m', d, root)
  {
    forall i | i in m' ensures EntryFits(m', d, root, i) {
      if i != to {
        assert EntryFits(m, d, root, i);
        StillFits(m, m', d, root, i);
      }
    }
  }

  lemma EdgeAndEntry(m: StateMap, m': StateMap, k: Key, to: Key, x: Instance)
    requires k in m && to !in m && m' == m[k := WithEdgeOut(m[k], to)][to := x]
    ensures m'.Keys == m.Keys + {to} && m'[k] == WithEdgeOut(m[k], to) && Grows(m, m')
    ensures forall i :: i in m && i != k ==> m'[i] == m[i]
  {
  }

  /** A new edge between two entries. */
  lemma EdgeKeepsGood(m: StateMap, m': StateMap, d: Key, root: Key, open: set<Key>, log: Log, k: Key, to: Key)
    requires GoodState(m, d, root, open, log) && k in m && to in m && m' == m[k := WithEdgeOut(m[k], to)]
    ensures GoodState(m', d, root, open, log) && Grows(m, m')
  {
    assert EntryFits(m, d, root, k);
    EntryUpdated(m, m', d, root, open, log, k);
  }

  lemma NewComponentFits(m: StateMap, d: Key, root: Key, service: ComponentInstanceKey, cik: ComponentInstanceKey)
    requires cik.GetKey() in m && m[cik.GetKey()] == NewInstance(cik) && Plain(cik.componentName) && !cik.IsService()
    requires cik.GetParentServiceKey().GetKey() == service.GetKey()
    requires service.GetKey() in m && cik.GetKey() in m[service.GetKey()].edgesOut
    ensures EntryFits(m, d, root, cik.GetKey())
  {
  }

  lemma NewServiceFits(m: StateMap, d: Key, root: Key, service: ComponentInstanceKey)
    requires service.GetKey() in m && m[service.GetKey()] == NewInstance(service) && service.IsService()
    ensures EntryFits(m, d, root, service.GetKey())
  {
  }

  lemma ServiceEntered(m: StateMap, d: Key, root: Key, open: set<Key>, log: Log, arrival: Option<ComponentInstanceKey>, service: ComponentInstanceKey)
    requires GoodState(m, d, root, open, log) && service.IsService()
    requires if arrival.None? then m == map[] && service.GetKey() == root else arrival.value.GetKey() in m
    ensures var m' := EdgeStored(LabelsRecorded(m, service), arrival, service);
      service.GetKey() in m' && GoodState(m', d, root, open + {service.GetKey()}, log) && Grows(m, m')
  {
    var m', k := EdgeStored(LabelsRecorded(m, service), arrival, service), service.GetKey();
    if arrival.None? {
      NewServiceFits(m', d, root, service);
      assert Trail(m', root, [root], root);
      assert forall p :: p in log.parents ==> HasComponent(m, p);
    } else if k in m {
      assert LabelsRecorded(m, service) == m;
      EdgeKeepsGood(m, m', d, root, open, log, arrival.value.GetKey(), k);
      Opened(m', d, root, open, log, k);
    } else {
      var a := arrival.value.GetKey();
      EdgeAndEntry(m, m', a, k, NewInstance(service));
      NewServiceFits(m', d, root, service);
      EntryAdded(m, m', d, root, open, log, log, a, k);
    }
  }

  lemma ParentOfComponent(service: ComponentInstanceKey, name: string)
    requires service.IsService() && Plain(name) && name != ROOT
    ensures var cik := ComponentKeyOf(service, name);
      cik.GetParentServiceKey().GetKey() == service.GetKey() && cik.GetKey() != service.GetKey()
  {
    var cik := ComponentKeyOf(service, name);
    var parent := cik.GetParentServiceKey();
    KeySplits(parent);
    KeySplits(service);
    assert KeyPrefix(parent) == KeyPrefix(service);
    if cik.GetKey() == service.GetKey() {
      ParentDetermined(cik, service);
    }
  }

  lemma ComponentEntered(m: StateMap, d: Key, root: Key, open: set<Key>, log: Log, service: ComponentInstanceKey, name: string)
    requires GoodState(m, d, root, open, log) && service.IsService() && service.GetKey() in m && Plain(name) && name != ROOT
    ensures var cik := ComponentKeyOf(service, name);
      var m' := LabelsRecorded(EdgeStored(m, Some(service), cik), cik);
      cik.GetKey() in m' && GoodState(m', d, root, open + {cik.GetKey()}, Add(log, Log({}, {}, {service.GetKey()}))) && Grows(m, m')
  {
    var cik := ComponentKeyOf(service, name);
    var m', k, s := LabelsRecorded(EdgeStored(m, Some(service), cik), cik), cik.GetKey(), service.GetKey();
    var log' := Add(log, Log({}, {}, {s}));
    ParentOfComponent(service, name);
    if k in m {
      assert EntryFits(m, d, root, k);
      ParentDetermined(m[k].cik, cik);
      assert HasComponent(m, s);
      ParentLogged(m, d, root, open, log, s);
      EdgeKeepsGood(m, m', d, root, open, log', s, k);
      Opened(m', d, root, open, log', k);
    } else {
      EdgeAndEntry(m, m', s, k, NewInstance(cik));
      NewComponentFits(m', d, root, service, cik);
      assert HasComponent(m', s);
      EntryAdded(m, m', d, root, open, log, log', s, k);
    }
  }

  // ---- The whole walk, by induction.

  /** Where a node is in the walk: at the start, or reached from a component instance. */
  ghost predicate NodePlace<S(!new)>(o: Oracle<S>, scope: S, arrival: Option<ComponentInstanceKey>, path: seq<Key>, depth: nat, m: StateMap, root: Key) {
    if path == [] then
      arrival.None? && depth == 0 && m == map[] && (o.enter(scope).Some? ==> o.enter(scope).value.cik.GetKey() == root)
    else
      arrival.Some? && arrival.value.GetKey() in m && depth > 0 && path[0] == root
  }

  /** A part of the walk that comes to its end keeps the state good, and has made the given visits. */
  ghost predicate EndsGood<S(!new)>(w: Walked<S>, m: StateMap, d: Key, root: Key, open: set<Key>, log: Log, scope: S) {
    w.end != Failed ==> GoodState(w.m, d, root, open, log) && Grows(m, w.m) && w.scope == scope
  }

  ghost function RoundLog<S(!new)>(o: Oracle<S>, service: Key, r: Round<S>): Log {
    Add(LogOf(o, r.visits), Log({}, {}, if SomeMatch(o, r.asked) then {service} else {}))
  }

  lemma RoundLogNone<S(!new)>(o: Oracle<S>, log: Log, service: Key, asked: seq<(S, string)>, scope: S)
    requires !SomeMatch(o, asked)
    ensures Add(log, RoundLog(o, service, Round(asked, [], scope))) == log
  {
    LogOfNone(o);
    AddNothing(log);
  }

  lemma VisitLogged<S(!new)>(o: Oracle<S>, log: Log, service: Key, r: Round<S>)
    ensures Add(Add(log, RoundLog(o, service, r)), Log({service}, if NoCriteriaError(o, r.asked) then {service} else {}, {}))
         == Add(log, LogOf(o, r.visits + [Visit(service, r.asked)]))
  {
    LogOfBoth(o, r.visits, [Visit(service, r.asked)]);
    LogOfOne(o, Visit(service, r.asked));
  }

  lemma {:induction false} WalkGood<S(!new)>(o: Oracle<S>, universe: set<Key>, d: Key, scope: S, arrival: Option<ComponentInstanceKey>,
                                             path: seq<Key>, depth: nat, m: StateMap, root: Key, open: set<Key>, log: Log)
    requires ValidOracle(o, universe) && GoodState(m, d, root, open, log)
    requires NodePlace(o, scope, arrival, path, depth, m, root)
    ensures var w, t := Walk(o, universe, d, scope, arrival, path, depth, m), TourNode(o, universe, scope, path);
      && EndsGood(w, m, d, root, open, Add(log, LogOf(o, t.visits)), t.scope)
      && (w.end == Completed ==> t.visits != [] && t.visits[|t.visits| - 1].service == o.enter(scope).value.cik.GetKey())
      && (w.end == Completed && path == [] && NoCriteriaError(o, t.visits[|t.visits| - 1].asked) ==> IsRootOf(w.m, root, d))
    decreases Left(universe, path), 0, 0
  {
    if Walk(o, universe, d, scope, arrival, path, depth, m).end == Completed {
      var service := o.enter(scope).value;
      FewerLeft(universe, path, service.cik.GetKey());
      assert Walk(o, universe, d, scope, arrival, path, depth, m)
          == WalkService(o, universe, d, service, arrival, path + [service.cik.GetKey()], depth, m);
      WalkServiceGood(o, universe, d, service, arrival, path, depth, m, root, open, log);
    }
  }

  lemma {:induction false} WalkServiceGood<S(!new)>(o: Oracle<S>, universe: set<Key>, d: Key, service: Service<S>, arrival: Option<ComponentInstanceKey>,
                                                    path: seq<Key>, depth: nat, m: StateMap, root: Key, open: set<Key>, log: Log)
    requires ValidOracle(o, universe) && GoodState(m, d, root, open, log)
    requires service.cik.IsService() && service.components.Some?
    requires forall name :: name in service.components.value ==> Plain(name) && name != ROOT
    requires if arrival.None? then m == map[] && service.cik.GetKey() == root && path == [] else arrival.value.GetKey() in m && depth > 0 && path != [] && path[0] == root
    ensures var k := service.cik.GetKey();
      var w := WalkService(o, universe, d, service, arrival, path + [k], depth, m);
      var r := TourComponents(o, universe, service.scope, service.components.value, path + [k]);
      && EndsGood(w, m, d, root, open, Add(log, LogOf(o, r.visits + [Visit(k, r.asked)])), r.scope)
      && (w.end == Completed && depth == 0 && NoCriteriaError(o, r.asked) ==> IsRootOf(w.m, root, d))
    decreases Left(universe, path + [service.cik.GetKey()]), |service.components.value| + 2, 0
  {
    var k, components := service.cik.GetKey(), service.components.value;
    var m1 := EdgeStored(LabelsRecorded(m, service.cik), arrival, service.cik);
    ServiceEntered(m, d, root, open, log, arrival, service.cik);
    WalkComponentsGood(o, universe, d, service.scope, service.cik, components, path + [k], depth, m1, root, open + {k}, log);
    WalkServiceEnds(o, universe, d, service, arrival, path + [k], depth, m);
    var w := WalkComponents(o, universe, d, service.scope, service.cik, components, path + [k], depth, m1);
    var r := TourComponents(o, universe, service.scope, components, path + [k]);
    if w.end != Failed {
      GrowsOn(m, m1, w.m);
      VisitLogged(o, log, k, r);
      ServiceLeft(w.m, d, root, open, Add(log, RoundLog(o, k, r)), service.cik, depth, NoCriteriaError(o, r.asked));
      if NoCriteriaError(o, r.asked) {
        GrowsOn(m, w.m, ResolvedRecorded(w.m, service.cik, d, depth));
      }
    }
  }

  lemma ServiceLeft(m: StateMap, d: Key, root: Key, open: set<Key>, log: Log, service: ComponentInstanceKey, depth: nat, clean: bool)
    requires GoodState(m, d, root, open + {service.GetKey()}, log) && service.GetKey() in m && service.IsService()
    requires depth == 0 ==> service.GetKey() == root
    ensures var m' := if clean then ResolvedRecorded(m, service, d, depth) else m;
      GoodState(m', d, root, open, Add(log, Log({service.GetKey()}, if clean then {service.GetKey()} else {}, {}))) && Grows(m, m')
      && (depth == 0 && clean ==> IsRootOf(m', root, d))
  {
    if clean {
      var k := service.GetKey();
      Recorded(m, d, root, open, log, Add(log, Log({k}, {k}, {})), service, depth);
      assert EntryFits(m, d, root, k);
      ParentDetermined(m[k].cik, service);
    } else {
      Passed(m, d, root, open, log, service);
    }
  }

  lemma {:induction false} WalkComponentsGood<S(!new)>(o: Oracle<S>, universe: set<Key>, d: Key, scope: S, service: ComponentInstanceKey,
                                                       components: seq<string>, path: seq<Key>, depth: nat, m: StateMap, root: Key, open: set<Key>, log: Log)
    requires ValidOracle(o, universe) && GoodState(m, d, root, open, log)
    requires path != [] && path[0] == root && service.IsService() && service.GetKey() in m
    requires forall name :: name in components ==> Plain(name) && name != ROOT
    ensures var w := WalkComponents(o, universe, d, scope, service, components, path, depth, m);
      var r := TourComponents(o, universe, scope, components, path);
      && EndsGood(w, m, d, root, open, Add(log, RoundLog(o, service.GetKey(), r)), r.scope)
      && (w.end != Failed ==> (w.end == Completed <==> NoCriteriaError(o, r.asked)))
    decreases Left(universe, path), |components| + 1, 0
  {
    if components == [] {
      RoundLogNone(o, log, service.GetKey(), [], scope);
    } else {
      var name, rest := components[0], components[1..];
      assert components == [name] + rest;
      assert forall n :: n in rest ==> n in components;
      match o.matches(scope, name)
      case CriteriaError =>
        AskedFirst(o, (scope, name), []);
        assert [(scope, name)] + [] == [(scope, name)];
        RoundLogNone(o, log, service.GetKey(), [(scope, name)], scope);
      case NotMatched =>
        WalkComponentsGood(o, universe, d, scope, service, rest, path, depth, m, root, open, log);
        var r := TourComponents(o, universe, scope, rest, path);
        AskedFirst(o, (scope, name), r.asked);
      case Matched =>
        MatchedGood(o, universe, d, scope, service, name, rest, path, depth, m, root, open, log);
    }
  }

  lemma RoundLogged<S(!new)>(o: Oracle<S>, log: Log, service: Key, p: (S, string), visits: seq<Visit<S>>, r: Round<S>)
    requires o.matches(p.0, p.1) == Matched
    ensures Add(Add(Add(log, Log({}, {}, {service})), LogOf(o, visits)), RoundLog(o, service, r))
         == Add(log, RoundLog(o, service, Round([p] + r.asked, visits + r.visits, r.scope)))
  {
    AskedFirst(o, p, r.asked);
    LogOfBoth(o, visits, r.visits);
  }

  lemma {:induction false} MatchedGood<S(!new)>(o: Oracle<S>, universe: set<Key>, d: Key, scope: S, service: ComponentInstanceKey, name: string,
                                                rest: seq<string>, path: seq<Key>, depth: nat, m: StateMap, root: Key, open: set<Key>, log: Log)
    requires ValidOracle(o, universe) && GoodState(m, d, root, open, log)
    requires path != [] && path[0] == root && service.IsService() && service.GetKey() in m
    requires Plain(name) && name != ROOT && forall n :: n in rest ==> Plain(n) && n != ROOT
    requires o.matches(scope, name) == Matched
    ensures var components := [name] + rest;
      var w := WalkComponents(o, universe, d, scope, service, components, path, depth, m);
      var r := TourComponents(o, universe, scope, components, path);
      && EndsGood(w, m, d, root, open, Add(log, RoundLog(o, service.GetKey(), r)), r.scope)
      && (w.end != Failed ==> (w.end == Completed <==> NoCriteriaError(o, r.asked)))
    decreases Left(universe, path), |rest| + 1, 1
  {
    var cik, components := ComponentKeyOf(service, name), [name] + rest;
    assert components[0] == name && components[1..] == rest;
    var k, m1 := cik.GetKey(), LabelsRecorded(EdgeStored(m, Some(service), cik), cik);
    var log1 := Add(log, Log({}, {}, {service.GetKey()}));
    ComponentEntered(m, d, root, open, log, service, name);
    var w := WalkComponent(o, universe, d, scope, name, cik, path, depth, m1);
    var t := TourComponent(o, universe, scope, name, path);
    WalkComponentGood(o, universe, d, scope, name, cik, path, depth, m1, root, open + {k}, log1);
    if w.end == Completed {
      var m2, log2 := ResolvedRecorded(w.m, cik, d, depth), Add(log1, LogOf(o, t.visits));
      Recorded(w.m, d, root, open, log2, log2, cik, depth);
      WalkComponentsGood(o, universe, d, t.scope, service, rest, path, depth, m2, root, open, log2);
      var c, r := WalkComponents(o, universe, d, t.scope, service, rest, path, depth, m2), TourComponents(o, universe, t.scope, rest, path);
      RoundLogged(o, log, service.GetKey(), (scope, name), t.visits, r);
      AskedFirst(o, (scope, name), r.asked);
      GrowsOn(m, m1, w.m);
      GrowsOn(m, w.m, m2);
      if c.end != Failed {
        GrowsOn(m, m2, c.m);
      }
    }
  }

  lemma DiscoveryKeepsGood(m: StateMap, m': StateMap, d: Key, root: Key, open: set<Key>, log: Log, k: Key, p: Params)
    requires GoodState(m, d, root, open, log) && k in m && m' == m[k := WithDiscoveryParams(m[k], p)]
    ensures GoodState(m', d, root, open, log) && Grows(m, m')
  {
    assert EntryFits(m, d, root, k);
    EntryUpdated(m, m', d, root, open, log, k);
  }

  lemma CodeKeepsGood(m: StateMap, m': StateMap, d: Key, root: Key, open: set<Key>, log: Log, k: Key, p: Params)
    requires GoodState(m, d, root, open, log) && k in m && m' == m[k := WithCode(m[k], p)]
    ensures GoodState(m', d, root, open, log) && Grows(m, m')
  {
    assert EntryFits(m, d, root, k);
    EntryUpdated(m, m', d, root, open, log, k);
  }

  lemma {:induction false} WalkComponentGood<S(!new)>(o: Oracle<S>, universe: set<Key>, d: Key, scope: S, name: string, cik: ComponentInstanceKey,
                                                      path: seq<Key>, depth: nat, m: StateMap, root: Key, open: set<Key>, log: Log)
    requires ValidOracle(o, universe) && GoodState(m, d, root, open, log)
    requires path != [] && path[0] == root && cik.GetKey() in m
    ensures var w := WalkComponent(o, universe, d, scope, name, cik, path, depth, m);
      var t := TourComponent(o, universe, scope, name, path);
      EndsGood(w, m, d, root, open, Add(log, LogOf(o, t.visits)), t.scope) && w.end != Stopped
    decreases Left(universe, path), 0, 2
  {
    var discovered := o.discover(scope, name);
    if discovered.Some? {
      var (params, scope1) := discovered.value;
      var m1 := DiscoveryRecorded(m, cik, params);
      DiscoveryKeepsGood(m, m1, d, root, open, log, cik.GetKey(), params);
      WalkKindGood(o, universe, d, scope1, name, cik, path, depth, m1, root, open, log);
      var w1 := WalkKind(o, universe, d, scope1, name, cik, path, depth, m1);
      if w1.end == Completed {
        GrowsOn(m, m1, w1.m);
      }
    }
  }

  lemma WalkOwnGood<S(!new)>(o: Oracle<S>, universe: set<Key>, d: Key, scope: S, name: string, cik: ComponentInstanceKey,
                             path: seq<Key>, depth: nat, m: StateMap, root: Key, open: set<Key>, log: Log)
    requires ValidOracle(o, universe) && GoodState(m, d, root, open, log) && cik.GetKey() in m && !o.kind(scope, name).Contract?
    ensures var w := WalkKind(o, universe, d, scope, name, cik, path, depth, m);
      EndsGood(w, m, d, root, open, log, scope) && w.end != Stopped
  {
    match o.kind(scope, name)
    case Code(None) =>
    case Code(Some(params)) =>
      CodeKeepsGood(m, WalkKind(o, universe, d, scope, name, cik, path, depth, m).m, d, root, open, log, cik.GetKey(), params);
    case Neither =>
      assert WalkKind(o, universe, d, scope, name, cik, path, depth, m).m == m;
  }

  lemma {:induction false} WalkKindGood<S(!new)>(o: Oracle<S>, universe: set<Key>, d: Key, scope: S, name: string, cik: ComponentInstanceKey,
                                                 path: seq<Key>, depth: nat, m: StateMap, root: Key, open: set<Key>, log: Log)
    requires ValidOracle(o, universe) && GoodState(m, d, root, open, log)
    requires path != [] && path[0] == root && cik.GetKey() in m
    ensures var w := WalkKind(o, universe, d, scope, name, cik, path, depth, m);
      var t := TourKind(o, universe, scope, name, path);
      EndsGood(w, m, d, root, open, Add(log, LogOf(o, t.visits)), t.scope) && w.end != Stopped
    decreases Left(universe, path), 0, 1
  {
    if o.kind(scope, name).Contract? {
      var child := o.kind(scope, name).child;
      WalkGood(o, universe, d, child, Some(cik), path, depth + 1, m, root, open, log);
      var w, c := WalkKind(o, universe, d, scope, name, cik, path, depth, m), Walk(o, universe, d, child, Some(cik), path, depth + 1, m);
      assert w == c.(scope := o.back(scope, name, c.scope));
    } else {
      WalkOwnGood(o, universe, d, scope, name, cik, path, depth, m, root, open, log);
      LogOfNone(o);
      AddNothing(log);
    }
  }

  // ---- What resolving a dependency from the start gives.

  ghost function ResolveDependency<S(!new)>(o: Oracle<S>, universe: set<Key>, d: Key, scope: S): Walked<S>
    requires ValidOracle(o, universe)
  {
    Walk(o, universe, d, scope, None, [], 0, map[])
  }

  function RootKey<S>(o: Oracle<S>, scope: S): Key {
    if o.enter(scope).Some? then o.enter(scope).value.cik.GetKey() else ""
  }

  /** Services have edges to their components. */
  ghost predicate ParentsPointToComponents(m: StateMap) {
    forall k :: k in m && !m[k].cik.IsService() ==> ParentKey(m[k]) in m && k in m[ParentKey(m[k])].edgesOut
  }

  ghost predicate EdgesInside(m: StateMap) {
    forall k :: k in m ==> m[k].edgesOut <= m.Keys
  }

  /** A resolution of one dependency that is complete. */
  ghost predicate Complete(m: StateMap, d: Key, root: Key) {
    && WellKeyed(m) && EdgesInside(m) && ParentsPointToComponents(m)
    && (forall k :: k in m ==> m[k].dependencyKeys.Keys == {d} && !m[k].error)
    && (forall k :: k in m <==> ReachedFrom(m, root, k))
    && (forall k :: IsRootOf(m, k, d) <==> k == root)
  }

  predicate Holds(m: StateMap, k: Key, d: Key) {
    k in m && d in m[k].dependencyKeys
  }

  /** The visit to the root service: the last one to be completed. */
  ghost function RootVisit<S(!new)>(o: Oracle<S>, universe: set<Key>, scope: S): Visit<S>
    requires ValidOracle(o, universe) && Visits(o, universe, scope) != []
  {
    var visits := Visits(o, universe, scope);
    visits[|visits| - 1]
  }

  /** All that holds when a walk has come to its end, with or without criteria errors. */
  lemma ResolvedIsGood<S(!new)>(o: Oracle<S>, universe: set<Key>, d: Key, scope: S)
    requires ValidOracle(o, universe) && ResolveDependency(o, universe, d, scope).end == Completed
    ensures var m, visits := ResolveDependency(o, universe, d, scope).m, Visits(o, universe, scope);
      && GoodState(m, d, RootKey(o, scope), {}, LogOf(o, visits))
      && visits != [] && RootVisit(o, universe, scope).service == RootKey(o, scope)
      && (NoCriteriaError(o, RootVisit(o, universe, scope).asked) ==> IsRootOf(m, RootKey(o, scope), d))
  {
    var visits := Visits(o, universe, scope);
    WalkGood(o, universe, d, scope, None, [], 0, map[], RootKey(o, scope), {}, NOTHING);
    AddNothing(LogOf(o, visits));
  }

  /** No visit is to a service on the path. */
  lemma {:induction false} VisitsOffPath<S(!new)>(o: Oracle<S>, universe: set<Key>, scope: S, path: seq<Key>)
    requires ValidOracle(o, universe)
    ensures forall v :: v in TourNode(o, universe, scope, path).visits ==> v.service !in path
    decreases Left(universe, path), 0, 0
  {
    if o.enter(scope).Some? && o.enter(scope).value.cik.GetKey() !in path && o.enter(scope).value.components.Some? {
      var service := o.enter(scope).value;
      FewerLeft(universe, path, service.cik.GetKey());
      RoundOffPath(o, universe, service.scope, service.components.value, path + [service.cik.GetKey()]);
    }
  }

  lemma {:induction false} RoundOffPath<S(!new)>(o: Oracle<S>, universe: set<Key>, scope: S, components: seq<string>, path: seq<Key>)
    requires ValidOracle(o, universe)
    ensures forall v :: v in TourComponents(o, universe, scope, components, path).visits ==> v.service !in path
    decreases Left(universe, path), |components| + 1, 0
  {
    if components != [] {
      var name, rest := components[0], components[1..];
      match o.matches(scope, name)
      case CriteriaError =>
      case NotMatched =>
        RoundOffPath(o, universe, scope, rest, path);
      case Matched =>
        var t := TourComponent(o, universe, scope, name, path);
        if o.discover(scope, name).Some? {
          KindOffPath(o, universe, o.discover(scope, name).value.1, name, path);
        }
        RoundOffPath(o, universe, t.scope, rest, path);
    }
  }

  lemma {:induction false} KindOffPath<S(!new)>(o: Oracle<S>, universe: set<Key>, scope: S, name: string, path: seq<Key>)
    requires ValidOracle(o, universe)
    ensures forall v :: v in TourKind(o, universe, scope, name, path).visits ==> v.service !in path
    decreases Left(universe, path), 0, 1
  {
    if o.kind(scope, name).Contract? {
      VisitsOffPath(o, universe, o.kind(scope, name).child, path);
    }
  }

  /** The root is visited once. */
  lemma RootVisitedOnce<S(!new)>(o: Oracle<S>, universe: set<Key>, scope: S, v: Visit<S>)
    requires ValidOracle(o, universe) && v in Visits(o, universe, scope) && v.service == RootKey(o, scope)
    ensures v == RootVisit(o, universe, scope)
  {
    var service := o.enter(scope).value;
    var path := [] + [service.cik.GetKey()];
    assert RootKey(o, scope) in path;
    RoundOffPath(o, universe, service.scope, service.components.value, path);
  }

  /**
   Closure: a dependency that resolves leaves exactly the instances reachable from its root service, all of
   them held by the dependency, with the targets of all edges, and with a parent service that has an edge
   to it for each component, and the root is the only service instance at depth 0, if and only if each
   service visited has a visit in which no criteria error occurs.
   */
  lemma ResolvedIsComplete<S(!new)>(o: Oracle<S>, universe: set<Key>, d: Key, scope: S)
    requires ValidOracle(o, universe) && ResolveDependency(o, universe, d, scope).end == Completed
    ensures Complete(ResolveDependency(o, universe, d, scope).m, d, RootKey(o, scope))
       <==> EachServiceClean(o, Visits(o, universe, scope))
  {
    var m, root, visits := ResolveDependency(o, universe, d, scope).m, RootKey(o, scope), Visits(o, universe, scope);
    ResolvedIsGood(o, universe, d, scope);
    CleanIffLogged(o, visits);
    if EachServiceClean(o, visits) {
      assert RootVisit(o, universe, scope) in visits;
      var v :| v in visits && v.service == root && NoCriteriaError(o, v.asked);
      RootVisitedOnce(o, universe, scope, v);
      GoodIsComplete(m, d, root, LogOf(o, visits));
    }
    if Complete(m, d, root) {
      HeldIsClean(m, d, root, LogOf(o, visits));
    }
  }

  /** What a resolved dependency holds: all components of its resolution, and the services with a visit without a criteria error. */
  lemma HeldIff<S(!new)>(o: Oracle<S>, universe: set<Key>, d: Key, scope: S, k: Key, e: Key)
    requires ValidOracle(o, universe) && ResolveDependency(o, universe, d, scope).end == Completed
    ensures var m := ResolveDependency(o, universe, d, scope).m;
      Holds(m, k, e) <==> e == d && k in m && (m[k].cik.IsService() ==> HasCleanVisit(o, Visits(o, universe, scope), k))
  {
    var m, root, visits := ResolveDependency(o, universe, d, scope).m, RootKey(o, scope), Visits(o, universe, scope);
    ResolvedIsGood(o, universe, d, scope);
    if k in m {
      assert EntryFits(m, d, root, k) && EntryHeld(m[k], k, d, {}, LogOf(o, visits));
      assert k in LogOf(o, visits).clean <==> HasCleanVisit(o, visits, k);
    }
  }

  lemma CleanIffLogged<S(!new)>(o: Oracle<S>, visits: seq<Visit<S>>)
    ensures EachServiceClean(o, visits) <==> LogOf(o, visits).seen <= LogOf(o, visits).clean
    ensures EachParentClean(o, visits) <==> LogOf(o, visits).parents <= LogOf(o, visits).clean
  {
    forall k ensures k in LogOf(o, visits).clean <==> HasCleanVisit(o, visits, k) {
    }
  }

  lemma HeldIsClean(m: StateMap, d: Key, root: Key, log: Log)
    requires GoodState(m, d, root, {}, log) && forall k :: k in m ==> d in m[k].dependencyKeys
    ensures log.seen <= log.clean
  {
    forall k | k in log.seen ensures k in log.clean {
      assert EntryHeld(m[k], k, d, {}, log);
    }
  }

  lemma GoodIsComplete(m: StateMap, d: Key, root: Key, log: Log)
    requires GoodState(m, d, root, {}, log) && log.seen <= log.clean && IsRootOf(m, root, d)
    ensures Complete(m, d, root)
  {
    AllComplete(m, d, root, log);
    forall k | ReachedFrom(m, root, k) ensures k in m {
      var trail :| Trail(m, root, trail, k);
      TrailInside(m, root, trail, k, |trail| - 1);
    }
  }

  lemma AllComplete(m: StateMap, d: Key, root: Key, log: Log)
    requires AllFit(m, d, root) && AllHeld(m, d, {}, log) && log.seen <= log.clean
    ensures WellKeyed(m) && EdgesInside(m) && ParentsPointToComponents(m)
    ensures forall k :: k in m ==> m[k].dependencyKeys.Keys == {d} && !m[k].error
    ensures forall k :: IsRootOf(m, k, d) ==> k == root
  {
    forall k | k in m
      ensures m[k].cik.GetKey() == k && Plain(m[k].cik.componentName) && !m[k].error && m[k].dependencyKeys.Keys == {d}
      ensures m[k].edgesOut <= m.Keys
      ensures !m[k].cik.IsService() ==> ParentKey(m[k]) in m && k in m[ParentKey(m[k])].edgesOut
      ensures IsRootOf(m, k, d) ==> k == root
    {
      assert EntryFits(m, d, root, k) && EntryHeld(m[k], k, d, {}, log);
    }
  }

  lemma {:induction false} TrailInside(m: StateMap, root: Key, trail: seq<Key>, to: Key, i: nat)
    requires EdgesInside(m) && root in m && Trail(m, root, trail, to) && i < |trail|
    ensures trail[i] in m
  {
    if i > 0 {
      TrailInside(m, root, trail, to, i - 1);
      assert trail[i - 1 + 1] in m[trail[i - 1]].edgesOut;
    }
  }

  lemma CompleteIsClosed(m: StateMap, d: Key, root: Key)
    requires Complete(m, d, root)
    ensures ParentClosed(m)
  {
  }

  // ---- Criteria errors.

  /**
   The error of a component's criteria is swallowed: the walk ends as if the dependency were resolved, but
   its service is not recorded. So a walk that reports success has recorded the root service if and only if
   no criteria error has occurred in the visit to it.
   */
  lemma RootRecordedIffNoCriteriaError<S(!new)>(o: Oracle<S>, universe: set<Key>, d: Key, scope: S)
    requires ValidOracle(o, universe) && ResolveDependency(o, universe, d, scope).end == Completed
    ensures Visits(o, universe, scope) != []
    ensures Holds(ResolveDependency(o, universe, d, scope).m, RootKey(o, scope), d)
       <==> NoCriteriaError(o, RootVisit(o, universe, scope).asked)
  {
    var m, root, visits := ResolveDependency(o, universe, d, scope).m, RootKey(o, scope), Visits(o, universe, scope);
    ResolvedIsGood(o, universe, d, scope);
    if Holds(m, root, d) {
      RootInLog(o, m, d, root, visits);
      var v :| v in visits && NoCriteriaError(o, v.asked) && v.service == root;
      RootVisitedOnce(o, universe, scope, v);
    }
  }

  lemma RootInLog<S(!new)>(o: Oracle<S>, m: StateMap, d: Key, root: Key, visits: seq<Visit<S>>)
    requires GoodState(m, d, root, {}, LogOf(o, visits)) && Holds(m, root, d)
    requires root in LogOf(o, visits).seen
    ensures HasCleanVisit(o, visits, root)
  {
    assert EntryHeld(m[root], root, d, {}, LogOf(o, visits));
  }

  /**
   A criteria error in a nested service leaves the root resolved, but the components of that service are
   held and the service itself may not be. The consumers are closed under parents if and only if each
   service with a matching component has a visit without a criteria error.
   */
  lemma ParentClosedIff<S(!new)>(o: Oracle<S>, universe: set<Key>, d: Key, scope: S)
    requires ValidOracle(o, universe) && ResolveDependency(o, universe, d, scope).end == Completed
    ensures ParentClosed(ResolveDependency(o, universe, d, scope).m) <==> EachParentClean(o, Visits(o, universe, scope))
  {
    var m, root, visits := ResolveDependency(o, universe, d, scope).m, RootKey(o, scope), Visits(o, universe, scope);
    ResolvedIsGood(o, universe, d, scope);
    CleanIffLogged(o, visits);
    if ParentClosed(m) {
      ClosedIsClean(m, d, root, LogOf(o, visits));
    }
    if EachParentClean(o, visits) {
      CleanIsClosed(m, d, root, LogOf(o, visits));
    }
  }

  lemma ParentIsService(x: Instance, parent: Instance)
    requires parent.cik.GetKey() == ParentKey(x) && Plain(parent.cik.componentName)
    ensures parent.cik.IsService()
  {
    ParentDetermined(parent.cik, x.cik.GetParentServiceKey());
  }

  lemma ParentHeld(m: StateMap, d: Key, root: Key, log: Log, k: Key)
    requires AllFit(m, d, root) && AllHeld(m, d, {}, log) && k in m && !m[k].cik.IsService()
    ensures d in m[k].dependencyKeys && ParentKey(m[k]) in m && ParentKey(m[k]) in log.parents
    ensures d in m[ParentKey(m[k])].dependencyKeys <==> ParentKey(m[k]) in log.clean
  {
    var s := ParentKey(m[k]);
    assert EntryHeld(m[k], k, d, {}, log) && EntryFits(m, d, root, k);
    assert EntryHeld(m[s], s, d, {}, log) && EntryFits(m, d, root, s);
    ParentIsService(m[k], m[s]);
  }

  lemma ClosedIsClean(m: StateMap, d: Key, root: Key, log: Log)
    requires GoodState(m, d, root, {}, log) && ParentClosed(m)
    ensures log.parents <= log.clean
  {
    forall s | s in log.parents ensures s in log.clean {
      assert HasComponent(m, s);
      var k :| k in m && !m[k].cik.IsService() && ParentKey(m[k]) == s;
      ParentHeld(m, d, root, log, k);
    }
  }

  lemma CleanIsClosed(m: StateMap, d: Key, root: Key, log: Log)
    requires GoodState(m, d, root, {}, log) && log.parents <= log.clean
    ensures ParentClosed(m)
  {
    forall k, e | k in m && e in m[k].dependencyKeys ensures ParentKey(m[k]) in m && e in m[ParentKey(m[k])].dependencyKeys {
      assert EntryFits(m, d, root, k);
      if !m[k].cik.IsService() {
        ParentHeld(m, d, root, log, k);
      }
    }
  }

  /** In particular, when the criteria of the first component cannot be evaluated. */
  lemma CriteriaErrorSwallowed<S(!new)>(o: Oracle<S>, universe: set<Key>, d: Key, scope: S)
    requires ValidOracle(o, universe) && o.enter(scope).Some? && o.enter(scope).value.components.Some?
    requires var service := o.enter(scope).value;
      service.components.value != [] && o.matches(service.scope, service.components.value[0]) == CriteriaError
    ensures var w := ResolveDependency(o, universe, d, scope);
      w.end == Completed && RootKey(o, scope) in w.m && w.m[RootKey(o, scope)].dependencyKeys == map[]
  {
    var service, root := o.enter(scope).value, RootKey(o, scope);
    var m := LabelsRecorded(map[], service.cik);
    assert EdgeStored(m, None, service.cik) == m;
    assert [] + [root] == [root];
    assert ResolveDependency(o, universe, d, scope) == WalkService(o, universe, d, service, None, [root], 0, map[]);
    assert WalkComponents(o, universe, d, service.scope, service.cik, service.components.value, [root], 0, m)
        == Walked(Stopped, m, service.scope);
  }

  // ---- Services on the path.

  /** A service on the path is not recorded by what is resolved below it. */
  lemma {:induction false} PathNotRecorded<S(!new)>(o: Oracle<S>, universe: set<Key>, d: Key, scope: S, arrival: Option<ComponentInstanceKey>,
                                                    path: seq<Key>, depth: nat, m: StateMap, s: ComponentInstanceKey)
    requires ValidOracle(o, universe) && s.IsService() && s.GetKey() in path
    ensures Holds(Walk(o, universe, d, scope, arrival, path, depth, m).m, s.GetKey(), d) == Holds(m, s.GetKey(), d)
    decreases Left(universe, path), 0, 0
  {
    if o.enter(scope).Some? && o.enter(scope).value.cik.GetKey() !in path {
      var service := o.enter(scope).value;
      FewerLeft(universe, path, service.cik.GetKey());
      ServiceNotRecorded(o, universe, d, service, arrival, path + [service.cik.GetKey()], depth, m, s);
      NotItself(service.cik, s, path);
    }
  }

  lemma NotItself(service: ComponentInstanceKey, s: ComponentInstanceKey, path: seq<Key>)
    requires s.GetKey() in path && service.GetKey() !in path
    ensures service.GetKey() != s.GetKey()
  {
  }

  /** Below a service, another service on the path is not recorded. */
  lemma {:induction false} ServiceNotRecorded<S(!new)>(o: Oracle<S>, universe: set<Key>, d: Key, service: Service<S>, arrival: Option<ComponentInstanceKey>,
                                                       path: seq<Key>, depth: nat, m: StateMap, s: ComponentInstanceKey)
    requires ValidOracle(o, universe) && s.IsService() && s.GetKey() in path && service.cik.IsService()
    requires service.components.Some? ==> forall name :: name in service.components.value ==> Plain(name) && name != ROOT
    ensures service.cik.GetKey() != s.GetKey() ==>
      Holds(WalkService(o, universe, d, service, arrival, path, depth, m).m, s.GetKey(), d) == Holds(m, s.GetKey(), d)
    decreases Left(universe, path), if service.components.Some? then |service.components.value| + 1 else 0, 0
  {
    var m1 := EdgeStored(LabelsRecorded(m, service.cik), arrival, service.cik);
    assert Holds(m1, s.GetKey(), d) == Holds(m, s.GetKey(), d);
    if service.components.Some? {
      WalkServiceEnds(o, universe, d, service, arrival, path, depth, m);
      ComponentsNotRecorded(o, universe, d, service.scope, service.cik, service.components.value, path, depth, m1, s);
    }
  }

  lemma {:induction false} ComponentsNotRecorded<S(!new)>(o: Oracle<S>, universe: set<Key>, d: Key, scope: S, service: ComponentInstanceKey,
                                                          components: seq<string>, path: seq<Key>, depth: nat, m: StateMap, s: ComponentInstanceKey)
    requires ValidOracle(o, universe) && s.IsService() && s.GetKey() in path && service.IsService()
    requires forall name :: name in components ==> Plain(name) && name != ROOT
    ensures Holds(WalkComponents(o, universe, d, scope, service, components, path, depth, m).m, s.GetKey(), d) == Holds(m, s.GetKey(), d)
    decreases Left(universe, path), |components|, 0
  {
    if components != [] {
      var name, rest := components[0], components[1..];
      assert name in components;
      match o.matches(scope, name)
      case CriteriaError =>
      case NotMatched => ComponentsNotRecorded(o, universe, d, scope, service, rest, path, depth, m, s);
      case Matched =>
        var cik := ComponentKeyOf(service, name);
        ComponentIsNotService(cik, s);
        var m1 := LabelsRecorded(EdgeStored(m, Some(service), cik), cik);
        var w := WalkComponent(o, universe, d, scope, name, cik, path, depth, m1);
        ComponentNotRecorded(o, universe, d, scope, name, cik, path, depth, m1, s);
        if w.end == Completed {
          ComponentsNotRecorded(o, universe, d, w.scope, service, rest, path, depth, ResolvedRecorded(w.m, cik, d, depth), s);
        }
    }
  }

  lemma ComponentIsNotService(cik: ComponentInstanceKey, s: ComponentInstanceKey)
    requires s.IsService() && !cik.IsService() && Plain(cik.componentName)
    ensures cik.GetKey() != s.GetKey()
  {
    if cik.GetKey() == s.GetKey() {
      ParentDetermined(cik, s);
    }
  }

  lemma {:induction false} ComponentNotRecorded<S(!new)>(o: Oracle<S>, universe: set<Key>, d: Key, scope: S, name: string, cik: ComponentInstanceKey,
                                                         path: seq<Key>, depth: nat, m: StateMap, s: ComponentInstanceKey)
    requires ValidOracle(o, universe) && s.IsService() && s.GetKey() in path
    ensures Holds(WalkComponent(o, universe, d, scope, name, cik, path, depth, m).m, s.GetKey(), d) == Holds(m, s.GetKey(), d)
    decreases Left(universe, path), 0, 2
  {
    var discovered := o.discover(scope, name);
    if discovered.Some? {
      var (params, scope1) := discovered.value;
      var m1 := DiscoveryRecorded(m, cik, params);
      if o.kind(scope1, name).Contract? {
        PathNotRecorded(o, universe, d, o.kind(scope1, name).child, Some(cik), path, depth + 1, m1, s);
      }
    }
  }
}

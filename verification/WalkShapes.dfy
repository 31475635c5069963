/**
 What the templates and the calls between services say about the instances that a walk leaves: which
 parameters are empty, and where the edges go.
 */
module WalkShapes {
  import opened Prelude
  import opened ComponentKey
  import opened Instances
  import opened Resolution
  import opened NodeWalk

  // ---- The shape of an instance, and of an edge.

  /** Nothing is there that the template does not have. */
  predicate NoMore(x: Instance, t: Template) {
    && (t.discovery.Empty() ==> x.discovery.Empty())
    && (x.isCode ==> t.code.Some?)
    && (!x.codeParams.Empty() ==> t.code.Some? && !t.code.value.Empty())
  }

  predicate AsTemplate(x: Instance, t: Template) {
    && x.discovery.Empty() == t.discovery.Empty()
    && x.isCode == t.code.Some?
    && x.codeParams.Empty() == (t.code.None? || t.code.value.Empty())
  }

  function TemplateOf<S>(o: Oracle<S>, x: Instance): Template {
    o.template(ParentKey(x), x.cik.componentName)
  }

  /** A service instance has no parameters; a component has at most those of its template, and all once it is held. */
  predicate Shaped<S>(o: Oracle<S>, x: Instance) {
    if x.cik.IsService() then x.discovery.Empty() && !x.isCode && x.codeParams.Empty()
    else NoMore(x, TemplateOf(o, x)) && (x.dependencyKeys != map[] ==> AsTemplate(x, TemplateOf(o, x)))
  }

  /** Some component of the service asks for a contract that is implemented by the other service. */
  ghost predicate Calls<S(!new)>(o: Oracle<S>, service: Key, other: Key) {
    exists s: S, name :: o.at(s) == service && o.kind(s, name).Contract? && CallsFrom(o, o.kind(s, name).child, other)
  }

  predicate CallsFrom<S>(o: Oracle<S>, child: S, other: Key) {
    o.enter(child).Some? && o.enter(child).value.cik.GetKey() == other
  }

  /** Services have edges to their own components, and components to services that are called. */
  ghost predicate EdgeFits<S(!new)>(o: Oracle<S>, m: StateMap, k: Key, e: Key)
    requires k in m
  {
    && e in m
    && if m[k].cik.IsService() then !m[e].cik.IsService() && ParentKey(m[e]) == k
       else m[e].cik.IsService() && Calls(o, ParentKey(m[k]), e)
  }

  ghost predicate EntryTyped<S(!new)>(o: Oracle<S>, m: StateMap, k: Key)
    requires k in m
  {
    && m[k].cik.GetKey() == k && Plain(m[k].cik.componentName) && Shaped(o, m[k])
    && forall e {:trigger EdgeFits(o, m, k, e)} :: e in m[k].edgesOut ==> EdgeFits(o, m, k, e)
  }

  ghost predicate Typed<S(!new)>(o: Oracle<S>, m: StateMap) {
    forall k {:trigger EntryTyped(o, m, k)} :: k in m ==> EntryTyped(o, m, k)
  }

  /** What has been recorded stays. */
  predicate Keeps(x: Instance, y: Instance) {
    && x.cik == y.cik && (x.isCode ==> y.isCode)
    && (!x.discovery.Empty() ==> !y.discovery.Empty()) && (!x.codeParams.Empty() ==> !y.codeParams.Empty())
  }

  ghost predicate Kept(m: StateMap, m': StateMap) {
    forall k :: k in m ==> k in m' && Keeps(m[k], m'[k])
  }

  lemma KeptOn(m: StateMap, m1: StateMap, m2: StateMap)
    requires Kept(m, m1) && Kept(m1, m2)
    ensures Kept(m, m2)
  {
  }

  // ---- The steps of the walk.

  lemma EdgesStillFit<S(!new)>(o: Oracle<S>, m: StateMap, m': StateMap, k: Key)
    requires Kept(m, m') && k in m && EntryTyped(o, m, k) && m'[k].edgesOut == m[k].edgesOut && Shaped(o, m'[k])
    ensures EntryTyped(o, m', k)
  {
    forall e | e in m'[k].edgesOut ensures EdgeFits(o, m', k, e) {
      assert EdgeFits(o, m, k, e);
    }
  }

  /** One entry is written, with the same edges. */
  lemma WrittenTyped<S(!new)>(o: Oracle<S>, m: StateMap, m': StateMap, k: Key)
    requires Typed(o, m) && k in m && k in m' && m' == m[k := m'[k]]
    requires Keeps(m[k], m'[k]) && m'[k].edgesOut == m[k].edgesOut && Shaped(o, m'[k])
    ensures Typed(o, m') && Kept(m, m')
  {
    forall i | i in m' ensures EntryTyped(o, m', i) {
      assert EntryTyped(o, m, i);
      EdgesStillFit(o, m, m', i);
    }
  }

  lemma NewTyped<S(!new)>(o: Oracle<S>, m: StateMap, cik: ComponentInstanceKey)
    requires Typed(o, m) && Plain(cik.componentName)
    ensures var m' := LabelsRecorded(m, cik); Typed(o, m') && Kept(m, m')
  {
    var m', k := LabelsRecorded(m, cik), cik.GetKey();
    forall i | i in m' ensures EntryTyped(o, m', i) {
      if i in m {
        assert EntryTyped(o, m, i);
        EdgesStillFit(o, m, m', i);
      }
    }
  }

  lemma EdgeTyped<S(!new)>(o: Oracle<S>, m: StateMap, m': StateMap, k: Key, e: Key)
    requires Typed(o, m) && k in m && m' == m[k := WithEdgeOut(m[k], e)] && EdgeFits(o, m, k, e)
    ensures Typed(o, m') && Kept(m, m')
  {
    forall i | i in m' ensures EntryTyped(o, m', i) {
      assert EntryTyped(o, m, i);
      if i != k {
        EdgesStillFit(o, m, m', i);
      } else {
        forall x | x in m'[k].edgesOut ensures EdgeFits(o, m', k, x) {
          assert EdgeFits(o, m, k, x);
        }
      }
    }
  }

  /** The entry of an instance, in terms of a key that it is filed under. */
  lemma SameEntry<S(!new)>(o: Oracle<S>, m: StateMap, cik: ComponentInstanceKey)
    requires Typed(o, m) && cik.GetKey() in m && Plain(cik.componentName)
    ensures m[cik.GetKey()].cik.IsService() == cik.IsService() && m[cik.GetKey()].cik.componentName == cik.componentName
    ensures ParentKey(m[cik.GetKey()]) == cik.GetParentServiceKey().GetKey()
  {
    assert EntryTyped(o, m, cik.GetKey());
    ParentDetermined(m[cik.GetKey()].cik, cik);
  }

  /** The walk has arrived from a component that has an entry. */
  ghost predicate ArrivedIn(m: StateMap, arrival: Option<ComponentInstanceKey>) {
    arrival.Some? ==> (arrival.value.GetKey() in m && !arrival.value.IsService() && Plain(arrival.value.componentName))
  }

  lemma ServiceTyped<S(!new)>(o: Oracle<S>, m: StateMap, arrival: Option<ComponentInstanceKey>, service: ComponentInstanceKey)
    requires Typed(o, m) && service.IsService()
    requires ArrivedIn(m, arrival)
    requires arrival.Some? ==> Calls(o, arrival.value.GetParentServiceKey().GetKey(), service.GetKey())
    ensures var m' := EdgeStored(LabelsRecorded(m, service), arrival, service);
      Typed(o, m') && Kept(m, m') && service.GetKey() in m'
  {
    var m1, m' := LabelsRecorded(m, service), EdgeStored(LabelsRecorded(m, service), arrival, service);
    NewTyped(o, m, service);
    SameEntry(o, m1, service);
    if arrival.Some? {
      SameEntry(o, m1, arrival.value);
      EdgeTyped(o, m1, m', arrival.value.GetKey(), service.GetKey());
      KeptOn(m, m1, m');
    }
  }

  lemma ComponentTyped<S(!new)>(o: Oracle<S>, m: StateMap, service: ComponentInstanceKey, name: string)
    requires Typed(o, m) && service.IsService() && service.GetKey() in m && Plain(name) && name != ROOT
    ensures var cik := ComponentKeyOf(service, name);
      var m' := LabelsRecorded(EdgeStored(m, Some(service), cik), cik);
      Typed(o, m') && Kept(m, m') && cik.GetKey() in m'
  {
    var cik, s := ComponentKeyOf(service, name), service.GetKey();
    var m1, m' := LabelsRecorded(m, cik), LabelsRecorded(EdgeStored(m, Some(service), cik), cik);
    ParentOfComponent(service, name);
    NewTyped(o, m, cik);
    SameEntry(o, m1, cik);
    SameEntry(o, m1, service);
    assert m' == m1[s := WithEdgeOut(m1[s], cik.GetKey())];
    EdgeTyped(o, m1, m', s, cik.GetKey());
    KeptOn(m, m1, m');
  }

  lemma ResolvedTyped<S(!new)>(o: Oracle<S>, m: StateMap, cik: ComponentInstanceKey, d: Key, depth: nat)
    requires Typed(o, m) && cik.GetKey() in m
    requires m[cik.GetKey()].cik.IsService() || AsTemplate(m[cik.GetKey()], TemplateOf(o, m[cik.GetKey()]))
    ensures Typed(o, ResolvedRecorded(m, cik, d, depth)) && Kept(m, ResolvedRecorded(m, cik, d, depth))
  {
    assert EntryTyped(o, m, cik.GetKey());
    WrittenTyped(o, m, ResolvedRecorded(m, cik, d, depth), cik.GetKey());
  }

  lemma DiscoveryShaped<S(!new)>(o: Oracle<S>, x: Instance, p: Params)
    requires !x.cik.IsService() && Shaped(o, x) && Evaluates(TemplateOf(o, x).discovery, p)
    ensures var y := WithDiscoveryParams(x, p);
      Shaped(o, y) && Keeps(x, y) && (AddParams(x.discovery, p).Some? ==> y.discovery.Empty() == TemplateOf(o, x).discovery.Empty())
  {
  }

  lemma CodeShaped<S(!new)>(o: Oracle<S>, x: Instance, p: Params)
    requires !x.cik.IsService() && Shaped(o, x) && TemplateOf(o, x).code.Some? && Evaluates(TemplateOf(o, x).code.value, p)
    ensures var y := WithCode(x, p);
      && Shaped(o, y) && Keeps(x, y) && y.discovery == x.discovery
      && (AddParams(x.codeParams, p).Some? && x.discovery.Empty() == TemplateOf(o, x).discovery.Empty() ==> AsTemplate(y, TemplateOf(o, x)))
  {
  }

  // ---- The whole walk.

  ghost predicate EndsTyped<S(!new)>(o: Oracle<S>, w: Walked<S>, m: StateMap) {
    w.end != Failed ==> Typed(o, w.m) && Kept(m, w.m)
  }

  lemma {:induction false} WalkTyped<S(!new)>(o: Oracle<S>, universe: set<Key>, d: Key, scope: S, arrival: Option<ComponentInstanceKey>,
                                              path: seq<Key>, depth: nat, m: StateMap)
    requires ValidOracle(o, universe) && Typed(o, m)
    requires ArrivedIn(m, arrival)
    requires arrival.Some? ==> forall k :: CallsFrom(o, scope, k) ==> Calls(o, arrival.value.GetParentServiceKey().GetKey(), k)
    ensures EndsTyped(o, Walk(o, universe, d, scope, arrival, path, depth, m), m)
    decreases Left(universe, path), 0, 0
  {
    var w := Walk(o, universe, d, scope, arrival, path, depth, m);
    if w.end != Failed {
      var service := o.enter(scope).value;
      var k := service.cik.GetKey();
      assert CallsFrom(o, scope, k);
      FewerLeft(universe, path, k);
      assert w == WalkService(o, universe, d, service, arrival, path + [k], depth, m);
      ServiceTyped(o, m, arrival, service.cik);
      var m1 := EdgeStored(LabelsRecorded(m, service.cik), arrival, service.cik);
      WalkServiceEnds(o, universe, d, service, arrival, path + [k], depth, m);
      WalkComponentsTyped(o, universe, d, service.scope, service.cik, service.components.value, path + [k], depth, m1);
      var c := WalkComponents(o, universe, d, service.scope, service.cik, service.components.value, path + [k], depth, m1);
      ServiceRecordedTyped(o, m, m1, c, w.m, service.cik, d, depth);
    }
  }

  lemma ServiceRecordedTyped<S(!new)>(o: Oracle<S>, m: StateMap, m1: StateMap, c: Walked<S>, m2: StateMap, service: ComponentInstanceKey, d: Key, depth: nat)
    requires Kept(m, m1) && Typed(o, c.m) && Kept(m1, c.m) && service.IsService() && service.GetKey() in c.m
    requires m2 == if c.end == Completed then ResolvedRecorded(c.m, service, d, depth) else c.m
    ensures Typed(o, m2) && Kept(m, m2)
  {
    KeptOn(m, m1, c.m);
    if c.end == Completed {
      SameEntry(o, c.m, service);
      ResolvedTyped(o, c.m, service, d, depth);
      KeptOn(m, c.m, m2);
    }
  }

  lemma {:induction false} WalkComponentsTyped<S(!new)>(o: Oracle<S>, universe: set<Key>, d: Key, scope: S, service: ComponentInstanceKey,
                                                        components: seq<string>, path: seq<Key>, depth: nat, m: StateMap)
    requires ValidOracle(o, universe) && Typed(o, m) && service.IsService() && service.GetKey() in m && o.at(scope) == service.GetKey()
    requires forall name :: name in components ==> Plain(name) && name != ROOT
    ensures EndsTyped(o, WalkComponents(o, universe, d, scope, service, components, path, depth, m), m)
    decreases Left(universe, path), |components|, 0
  {
    if components != [] {
      var name, rest := components[0], components[1..];
      assert forall n :: n in rest ==> n in components;
      match o.matches(scope, name)
      case CriteriaError =>
      case NotMatched => WalkComponentsTyped(o, universe, d, scope, service, rest, path, depth, m);
      case Matched =>
        var cik := ComponentKeyOf(service, name);
        var m1 := LabelsRecorded(EdgeStored(m, Some(service), cik), cik);
        ComponentTyped(o, m, service, name);
        ParentOfComponent(service, name);
        var w := WalkComponent(o, universe, d, scope, name, cik, path, depth, m1);
        WalkComponentTyped(o, universe, d, scope, name, cik, path, depth, m1);
        if w.end == Completed {
          var m2 := ResolvedRecorded(w.m, cik, d, depth);
          ResolvedTyped(o, w.m, cik, d, depth);
          KeptOn(m, m1, w.m);
          KeptOn(m, w.m, m2);
          WalkComponentsTyped(o, universe, d, w.scope, service, rest, path, depth, m2);
          var c := WalkComponents(o, universe, d, w.scope, service, rest, path, depth, m2);
          if c.end != Failed {
            KeptOn(m, m2, c.m);
          }
        }
    }
  }

  /** A component that has been walked has the parameters of its template, and its scope is still that of its service. */
  ghost predicate ComponentDone<S(!new)>(o: Oracle<S>, w: Walked<S>, m: StateMap, k: Key, service: Key) {
    EndsTyped(o, w, m) && (w.end != Failed ==> k in w.m && AsTemplate(w.m[k], TemplateOf(o, w.m[k])) && o.at(w.scope) == service)
  }

  lemma {:induction false} WalkComponentTyped<S(!new)>(o: Oracle<S>, universe: set<Key>, d: Key, scope: S, name: string, cik: ComponentInstanceKey,
                                                       path: seq<Key>, depth: nat, m: StateMap)
    requires ValidOracle(o, universe) && Typed(o, m) && cik.GetKey() in m && !cik.IsService() && Plain(name)
    requires cik.componentName == name && cik.GetParentServiceKey().GetKey() == o.at(scope)
    ensures ComponentDone(o, WalkComponent(o, universe, d, scope, name, cik, path, depth, m), m, cik.GetKey(), o.at(scope))
    decreases Left(universe, path), 0, 2
  {
    var k, discovered := cik.GetKey(), o.discover(scope, name);
    if discovered.Some? && AddParams(EntryOf(m, cik).discovery, discovered.value.0).Some? {
      var (params, scope1) := discovered.value;
      var m1 := DiscoveryRecorded(m, cik, params);
      SameEntry(o, m, cik);
      assert EntryTyped(o, m, k);
      DiscoveryShaped(o, m[k], params);
      WrittenTyped(o, m, m1, k);
      WalkKindTyped(o, universe, d, scope1, name, cik, path, depth, m1);
      var w := WalkKind(o, universe, d, scope1, name, cik, path, depth, m1);
      if w.end != Failed {
        KeptOn(m, m1, w.m);
      }
    }
  }

  lemma {:induction false} WalkKindTyped<S(!new)>(o: Oracle<S>, universe: set<Key>, d: Key, scope: S, name: string, cik: ComponentInstanceKey,
                                                  path: seq<Key>, depth: nat, m: StateMap)
    requires ValidOracle(o, universe) && Typed(o, m) && cik.GetKey() in m && !cik.IsService() && Plain(name)
    requires cik.componentName == name && cik.GetParentServiceKey().GetKey() == o.at(scope)
    requires m[cik.GetKey()].discovery.Empty() == TemplateOf(o, m[cik.GetKey()]).discovery.Empty()
    ensures ComponentDone(o, WalkKind(o, universe, d, scope, name, cik, path, depth, m), m, cik.GetKey(), o.at(scope))
    decreases Left(universe, path), 0, 1
  {
    var k := cik.GetKey();
    SameEntry(o, m, cik);
    assert EntryTyped(o, m, k);
    assert KindFits(o.kind(scope, name), TemplateOf(o, m[k]));
    match o.kind(scope, name)
    case Code(None) =>
    case Code(Some(params)) =>
      var w := WalkKind(o, universe, d, scope, name, cik, path, depth, m);
      CodeShaped(o, m[k], params);
      assert w.m == m[k := WithCode(m[k], params)];
      WrittenTyped(o, m, w.m, k);
    case Contract(child) =>
      forall other | CallsFrom(o, child, other) ensures Calls(o, o.at(scope), other) {
      }
      WalkTyped(o, universe, d, child, Some(cik), path, depth + 1, m);
      var w, c := WalkKind(o, universe, d, scope, name, cik, path, depth, m), Walk(o, universe, d, child, Some(cik), path, depth + 1, m);
      assert w == c.(scope := o.back(scope, name, c.scope));
      if w.end != Failed {
        StillAsTemplate(o, m[k], w.m, k);
      }
    case Neither =>
      assert WalkKind(o, universe, d, scope, name, cik, path, depth, m) == Walked(Completed, m, scope);
  }

  lemma StillAsTemplate<S(!new)>(o: Oracle<S>, x: Instance, m: StateMap, k: Key)
    requires k in m && Typed(o, m) && Keeps(x, m[k]) && !x.cik.IsService() && TemplateOf(o, x).code.None?
    requires x.discovery.Empty() == TemplateOf(o, x).discovery.Empty()
    ensures AsTemplate(m[k], TemplateOf(o, m[k]))
  {
    assert EntryTyped(o, m, k);
  }

  // ---- What resolutions of different dependencies have in common.

  /** A service has no parameters, and a component those of its template. */
  predicate Settled<S>(o: Oracle<S>, x: Instance) {
    if x.cik.IsService() then x.discovery.Empty() && !x.isCode && x.codeParams.Empty()
    else AsTemplate(x, TemplateOf(o, x))
  }

  /** The instances of a resolution: under their own keys, settled, without errors, and held by no other dependency. */
  lemma ResolvedIsSettled<S(!new)>(o: Oracle<S>, universe: set<Key>, d: Key, scope: S, k: Key)
    requires ValidOracle(o, universe) && ResolveDependency(o, universe, d, scope).end == Completed
    requires k in ResolveDependency(o, universe, d, scope).m
    ensures var x := ResolveDependency(o, universe, d, scope).m[k];
      x.cik.GetKey() == k && Plain(x.cik.componentName) && Settled(o, x) && !x.error && x.dependencyKeys.Keys <= {d}
  {
    var m := ResolveDependency(o, universe, d, scope).m;
    ResolvedIsTyped(o, universe, d, scope);
    ResolvedIsGood(o, universe, d, scope);
    EntrySettled(o, m, d, RootKey(o, scope), LogOf(o, Visits(o, universe, scope)), k);
  }

  lemma ResolvedIsTyped<S(!new)>(o: Oracle<S>, universe: set<Key>, d: Key, scope: S)
    requires ValidOracle(o, universe) && ResolveDependency(o, universe, d, scope).end == Completed
    ensures Typed(o, ResolveDependency(o, universe, d, scope).m)
  {
    WalkTyped(o, universe, d, scope, None, [], 0, map[]);
  }

  lemma EntrySettled<S(!new)>(o: Oracle<S>, m: StateMap, d: Key, root: Key, log: Log, k: Key)
    requires Typed(o, m) && AllFit(m, d, root) && AllHeld(m, d, {}, log) && k in m
    ensures m[k].cik.GetKey() == k && Plain(m[k].cik.componentName) && Settled(o, m[k]) && !m[k].error && m[k].dependencyKeys.Keys <= {d}
  {
    assert EntryTyped(o, m, k) && EntryFits(m, d, root, k) && EntryHeld(m[k], k, d, {}, log);
  }

  // ---- When edges cannot form a cycle.

  /** A component only asks for contracts implemented by services of a lower level than its own. */
  ghost predicate Stratified<S(!new)>(o: Oracle<S>, level: Key -> nat) {
    forall s: S, name :: o.kind(s, name).Contract? && o.enter(o.kind(s, name).child).Some? ==>
      level(o.enter(o.kind(s, name).child).value.cik.GetKey()) < level(o.at(s))
  }

  function RankOf(level: Key -> nat, x: Instance, k: Key): nat {
    if x.cik.IsService() then 2 * level(k) + 1 else 2 * level(ParentKey(x))
  }

  ghost predicate EdgesDescend(level: Key -> nat, m: StateMap) {
    forall k, e :: k in m && e in m[k].edgesOut ==> e in m && RankOf(level, m[e], e) < RankOf(level, m[k], k)
  }

  /** The edges of a resolution lead to lower ranks, if the calls between services do. */
  lemma StratifiedDescends<S(!new)>(o: Oracle<S>, universe: set<Key>, d: Key, scope: S, level: Key -> nat)
    requires ValidOracle(o, universe) && ResolveDependency(o, universe, d, scope).end == Completed && Stratified(o, level)
    ensures EdgesDescend(level, ResolveDependency(o, universe, d, scope).m)
  {
    var m := ResolveDependency(o, universe, d, scope).m;
    ResolvedIsTyped(o, universe, d, scope);
    forall k, e | k in m && e in m[k].edgesOut ensures e in m && RankOf(level, m[e], e) < RankOf(level, m[k], k) {
      EdgeDescends(o, m, level, k, e);
    }
  }

  lemma EdgeDescends<S(!new)>(o: Oracle<S>, m: StateMap, level: Key -> nat, k: Key, e: Key)
    requires Typed(o, m) && Stratified(o, level) && k in m && e in m[k].edgesOut
    ensures e in m && RankOf(level, m[e], e) < RankOf(level, m[k], k)
  {
    assert EntryTyped(o, m, k);
    assert EdgeFits(o, m, k, e);
    if !m[k].cik.IsService() {
      assert Calls(o, ParentKey(m[k]), e);
    }
  }
}

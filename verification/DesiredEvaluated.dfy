/** The merged desired state, in terms of what the walks of all dependencies have evaluated. */
module DesiredEvaluated {
  import opened Prelude
  import opened ComponentKey
  import opened Instances
  import opened Resolution
  import opened Merge
  import opened NodeWalk
  import opened WalkTrace
  import opened WalkContents
  import opened WalkEvaluated
  import opened WalkShapes
  import opened Resolver
  import opened DesiredState

  ghost predicate Resolves<S(!new)>(o: Oracle<S>, universe: set<Key>, dependencies: map<Key, S>, d: Key)
    requires ValidOracle(o, universe)
  {
    d in dependencies && NodeWalk.ResolveDependency(o, universe, d, dependencies[d]).end == Completed
  }

  /** What the walk of a dependency has evaluated for an instance. */
  ghost function EventsAt<S(!new)>(o: Oracle<S>, universe: set<Key>, dependencies: map<Key, S>, d: Key, k: Key): seq<Event>
    requires ValidOracle(o, universe) && d in dependencies
  {
    About(TraceOf(o, universe, dependencies[d]).events, k)
  }

  /** The instance of a key in the resolution of a dependency. */
  lemma InstanceOf<S(!new)>(o: Oracle<S>, universe: set<Key>, dependencies: map<Key, S>, order: seq<Key>, d: Key, k: Key)
    requires ValidOracle(o, universe) && IsOrderOf(order, dependencies.Keys) && Resolves(o, universe, dependencies, d)
    ensures var m, es := NodeWalk.ResolveDependency(o, universe, d, dependencies[d]).m, EventsAt(o, universe, dependencies, d, k);
      && (k in m <==> es != [])
      && (k in m ==> m[k] in At(Resolutions(o, universe, dependencies, order), k) && Describes(es, d, m[k]) && Settled(o, m[k])
                     && m[k].cik.GetKey() == k && Plain(m[k].cik.componentName)
                     && (forall p :: p in Discoveries(es) ==> m[k].discovery == p) && (forall p :: p in Codes(es) ==> m[k].codeParams == p))
  {
    var m := NodeWalk.ResolveDependency(o, universe, d, dependencies[d]).m;
    ResolvedAsTraced(o, universe, d, dependencies[d], k);
    if k in m {
      ResolutionTo(o, universe, dependencies, order, d);
      AtMember(Resolutions(o, universe, dependencies, order), k, m[k]);
      ResolvedIsSettled(o, universe, d, dependencies[d], k);
      StoredParams(o, universe, d, dependencies[d], k);
    }
  }

  /** The instances that are merged. */
  lemma MergedFrom<S(!new)>(o: Oracle<S>, universe: set<Key>, dependencies: map<Key, S>, order: seq<Key>, k: Key)
    requires ValidOracle(o, universe) && IsOrderOf(order, dependencies.Keys)
    ensures var rs := Resolutions(o, universe, dependencies, order);
      && (k in MergeAll(rs) <==> At(rs, k) != []) && (k in MergeAll(rs) ==> Sums(At(rs, k), MergeAll(rs)[k]))
  {
    ResolutionsMergeable(o, universe, dependencies, order);
    MergedInstance(Resolutions(o, universe, dependencies, order), k);
  }

  // ---- Contents.

  /** An instance is desired if and only if the walk of some dependency that resolves has come to it. */
  lemma DesiredIff<S(!new)>(o: Oracle<S>, universe: set<Key>, dependencies: map<Key, S>, order: seq<Key>, k: Key)
    requires ValidOracle(o, universe) && IsOrderOf(order, dependencies.Keys)
    ensures k in MergeAll(Resolutions(o, universe, dependencies, order))
       <==> exists d :: Resolves(o, universe, dependencies, d) && EventsAt(o, universe, dependencies, d, k) != []
  {
    var rs := Resolutions(o, universe, dependencies, order);
    MergedFrom(o, universe, dependencies, order, k);
    if At(rs, k) != [] {
      var d := InstanceFrom(o, universe, dependencies, order, k, At(rs, k)[0]);
      InstanceOf(o, universe, dependencies, order, d, k);
      assert Resolves(o, universe, dependencies, d) && EventsAt(o, universe, dependencies, d, k) != [];
    }
    if d :| Resolves(o, universe, dependencies, d) && EventsAt(o, universe, dependencies, d, k) != [] {
      InstanceOf(o, universe, dependencies, order, d, k);
    }
  }

  /** Its consumers are the dependencies that have recorded it, at the depth recorded last. */
  lemma DesiredDepths<S(!new)>(o: Oracle<S>, universe: set<Key>, dependencies: map<Key, S>, order: seq<Key>, k: Key, d: Key)
    requires ValidOracle(o, universe) && IsOrderOf(order, dependencies.Keys) && k in MergeAll(Resolutions(o, universe, dependencies, order))
    ensures var keys := MergeAll(Resolutions(o, universe, dependencies, order))[k].dependencyKeys;
      && (d in keys <==> Resolves(o, universe, dependencies, d) && Depths(EventsAt(o, universe, dependencies, d, k)) != [])
      && (d in keys ==> var depths := Depths(EventsAt(o, universe, dependencies, d, k)); keys[d] == depths[|depths| - 1])
  {
    if d in MergeAll(Resolutions(o, universe, dependencies, order))[k].dependencyKeys {
      ConsumerRecorded(o, universe, dependencies, order, k, d);
    }
    if Resolves(o, universe, dependencies, d) && Depths(EventsAt(o, universe, dependencies, d, k)) != [] {
      RecordedConsumer(o, universe, dependencies, order, k, d);
    }
  }

  lemma ConsumerRecorded<S(!new)>(o: Oracle<S>, universe: set<Key>, dependencies: map<Key, S>, order: seq<Key>, k: Key, d: Key)
    requires ValidOracle(o, universe) && IsOrderOf(order, dependencies.Keys) && k in MergeAll(Resolutions(o, universe, dependencies, order))
    requires d in MergeAll(Resolutions(o, universe, dependencies, order))[k].dependencyKeys
    ensures Resolves(o, universe, dependencies, d) && Depths(EventsAt(o, universe, dependencies, d, k)) != []
  {
    var rs := Resolutions(o, universe, dependencies, order);
    MergedFrom(o, universe, dependencies, order, k);
    var x := SomeConsumer(At(rs, k), MergeAll(rs)[k], d);
    var d' := InstanceFrom(o, universe, dependencies, order, k, x);
    InstanceOf(o, universe, dependencies, order, d, k);
  }

  lemma SomeConsumer(xs: seq<Instance>, v: Instance, d: Key) returns (x: Instance)
    requires SumsConsumers(xs, v) && d in v.dependencyKeys
    ensures x in xs && d in x.dependencyKeys
  {
    x :| x in xs && d in x.dependencyKeys;
  }

  lemma RecordedConsumer<S(!new)>(o: Oracle<S>, universe: set<Key>, dependencies: map<Key, S>, order: seq<Key>, k: Key, d: Key)
    requires ValidOracle(o, universe) && IsOrderOf(order, dependencies.Keys) && k in MergeAll(Resolutions(o, universe, dependencies, order))
    requires Resolves(o, universe, dependencies, d) && Depths(EventsAt(o, universe, dependencies, d, k)) != []
    ensures var keys, depths := MergeAll(Resolutions(o, universe, dependencies, order))[k].dependencyKeys, Depths(EventsAt(o, universe, dependencies, d, k));
      d in keys && keys[d] == depths[|depths| - 1]
  {
    var depths := Depths(EventsAt(o, universe, dependencies, d, k));
    var xs, x := PartsAt(o, universe, dependencies, order, k, d, depths);
    DepthOfSum(xs, x, MergeAll(Resolutions(o, universe, dependencies, order))[k], d, depths);
  }

  lemma PartsAt<S(!new)>(o: Oracle<S>, universe: set<Key>, dependencies: map<Key, S>, order: seq<Key>, k: Key, d: Key, depths: seq<nat>)
    returns (xs: seq<Instance>, x: Instance)
    requires ValidOracle(o, universe) && IsOrderOf(order, dependencies.Keys) && k in MergeAll(Resolutions(o, universe, dependencies, order))
    requires Resolves(o, universe, dependencies, d) && depths == Depths(EventsAt(o, universe, dependencies, d, k)) && depths != []
    ensures SumsConsumers(xs, MergeAll(Resolutions(o, universe, dependencies, order))[k]) && x in xs && HeldAsLast(depths, d, x)
  {
    SomeDepth(EventsAt(o, universe, dependencies, d, k));
    InstanceOf(o, universe, dependencies, order, d, k);
    MergedFrom(o, universe, dependencies, order, k);
    xs, x := At(Resolutions(o, universe, dependencies, order), k), NodeWalk.ResolveDependency(o, universe, d, dependencies[d]).m[k];
  }

  lemma SomeDepth(es: seq<Event>)
    requires Depths(es) != []
    ensures es != []
  {
  }

  lemma DepthOfSum(xs: seq<Instance>, x: Instance, v: Instance, d: Key, depths: seq<nat>)
    requires SumsConsumers(xs, v) && x in xs && HeldAsLast(depths, d, x) && depths != []
    ensures d in v.dependencyKeys && v.dependencyKeys[d] == depths[|depths| - 1]
  {
  }

  /** Two walks have evaluated an instance differently. */
  ghost predicate Opposed(es: seq<Event>, es': seq<Event>) {
    || (exists p, q :: p in Discoveries(es) && q in Discoveries(es') && !p.DeepEqual(q))
    || (exists p, q :: p in Codes(es) && q in Codes(es') && !p.DeepEqual(q))
  }

  ghost predicate SomeOpposed<S(!new)>(o: Oracle<S>, universe: set<Key>, dependencies: map<Key, S>, k: Key)
    requires ValidOracle(o, universe)
  {
    exists d, d' :: OpposedAt(o, universe, dependencies, d, d', k)
  }

  ghost predicate OpposedAt<S(!new)>(o: Oracle<S>, universe: set<Key>, dependencies: map<Key, S>, d: Key, d': Key, k: Key)
    requires ValidOracle(o, universe)
  {
    && Resolves(o, universe, dependencies, d) && Resolves(o, universe, dependencies, d')
    && Opposed(EventsAt(o, universe, dependencies, d, k), EventsAt(o, universe, dependencies, d', k))
  }

  /** It is in conflict if and only if two dependencies that resolve have evaluated parameters differently for it. */
  lemma ConflictIff<S(!new)>(o: Oracle<S>, universe: set<Key>, dependencies: map<Key, S>, order: seq<Key>, k: Key)
    requires ValidOracle(o, universe) && IsOrderOf(order, dependencies.Keys) && k in MergeAll(Resolutions(o, universe, dependencies, order))
    ensures MergeAll(Resolutions(o, universe, dependencies, order))[k].error <==> SomeOpposed(o, universe, dependencies, k)
  {
    MergedFrom(o, universe, dependencies, order, k);
    if Conflict(At(Resolutions(o, universe, dependencies, order), k)) {
      ConflictOpposed(o, universe, dependencies, order, k);
    }
    if d, d' :| OpposedAt(o, universe, dependencies, d, d', k) {
      OpposedConflict(o, universe, dependencies, order, k, d, d');
    }
  }

  lemma ConflictOpposed<S(!new)>(o: Oracle<S>, universe: set<Key>, dependencies: map<Key, S>, order: seq<Key>, k: Key)
    requires ValidOracle(o, universe) && IsOrderOf(order, dependencies.Keys)
    requires Conflict(At(Resolutions(o, universe, dependencies, order), k))
    ensures SomeOpposed(o, universe, dependencies, k)
  {
    var xs := At(Resolutions(o, universe, dependencies, order), k);
    var x, y :| x in xs && y in xs && !Compatible(x, y);
    var d := InstanceFrom(o, universe, dependencies, order, k, x);
    var d' := InstanceFrom(o, universe, dependencies, order, k, y);
    SettledAlike(o, x, y);
    InstanceOf(o, universe, dependencies, order, d, k);
    InstanceOf(o, universe, dependencies, order, d', k);
    IncompatibleOpposed(EventsAt(o, universe, dependencies, d, k), EventsAt(o, universe, dependencies, d', k), x, y);
    assert OpposedAt(o, universe, dependencies, d, d', k);
  }

  lemma OpposedConflict<S(!new)>(o: Oracle<S>, universe: set<Key>, dependencies: map<Key, S>, order: seq<Key>, k: Key, d: Key, d': Key)
    requires ValidOracle(o, universe) && IsOrderOf(order, dependencies.Keys) && OpposedAt(o, universe, dependencies, d, d', k)
    ensures Conflict(At(Resolutions(o, universe, dependencies, order), k))
  {
    var es, es' := EventsAt(o, universe, dependencies, d, k), EventsAt(o, universe, dependencies, d', k);
    OpposedEvents(es, es');
    InstanceOf(o, universe, dependencies, order, d, k);
    InstanceOf(o, universe, dependencies, order, d', k);
    OpposedIncompatible(es, es', NodeWalk.ResolveDependency(o, universe, d, dependencies[d]).m[k],
                        NodeWalk.ResolveDependency(o, universe, d', dependencies[d']).m[k]);
  }

  lemma OpposedEvents(es: seq<Event>, es': seq<Event>)
    requires Opposed(es, es')
    ensures es != [] && es' != []
  {
  }

  lemma NotEmptyStored(ps: seq<Params>, p: Params)
    requires Stores(ps, p) && !p.Empty()
    ensures p in ps
  {
    if forall q :: q in ps ==> q.Empty() {
      if ps != [] {
        assert ps[|ps| - 1] in ps;
      }
    }
  }

  lemma IncompatibleOpposed(es: seq<Event>, es': seq<Event>, x: Instance, y: Instance)
    requires HasParamsOf(es, x) && HasParamsOf(es', y) && x.isCode == y.isCode && SameEmptiness(x, y) && !Compatible(x, y)
    ensures Opposed(es, es')
  {
    if !x.discovery.DeepEqual(y.discovery) {
      NotEmptyStored(Discoveries(es), x.discovery);
      NotEmptyStored(Discoveries(es'), y.discovery);
    } else {
      NotEmptyStored(Codes(es), x.codeParams);
      NotEmptyStored(Codes(es'), y.codeParams);
    }
  }

  lemma OpposedIncompatible(es: seq<Event>, es': seq<Event>, x: Instance, y: Instance)
    requires Opposed(es, es')
    requires (forall p :: p in Discoveries(es) ==> x.discovery == p) && forall p :: p in Codes(es) ==> x.codeParams == p
    requires (forall p :: p in Discoveries(es') ==> y.discovery == p) && forall p :: p in Codes(es') ==> y.codeParams == p
    ensures !Compatible(x, y)
  {
  }

  /**
   Without a conflict a desired instance is as each walk has evaluated it, each time: discovery parameters,
   whether it is code, code parameters; and it has exactly the edges that some walk has made.
   */
  lemma DesiredIsEvaluated<S(!new)>(o: Oracle<S>, universe: set<Key>, dependencies: map<Key, S>, order: seq<Key>, k: Key)
    requires ValidOracle(o, universe) && IsOrderOf(order, dependencies.Keys) && k in MergeAll(Resolutions(o, universe, dependencies, order))
    requires !MergeAll(Resolutions(o, universe, dependencies, order))[k].error
    ensures var v := MergeAll(Resolutions(o, universe, dependencies, order))[k];
      && (forall d :: Resolves(o, universe, dependencies, d) && EventsAt(o, universe, dependencies, d, k) != []
                      ==> AsEvaluated(EventsAt(o, universe, dependencies, d, k), v))
      && (forall to :: to in v.edgesOut ==> exists d :: Resolves(o, universe, dependencies, d) && ConnectedTo(EventsAt(o, universe, dependencies, d, k), to))
  {
    var rs := Resolutions(o, universe, dependencies, order);
    var v := MergeAll(rs)[k];
    MergedFrom(o, universe, dependencies, order, k);
    forall d | Resolves(o, universe, dependencies, d) && EventsAt(o, universe, dependencies, d, k) != []
      ensures AsEvaluated(EventsAt(o, universe, dependencies, d, k), v)
    {
      InstanceOf(o, universe, dependencies, order, d, k);
      SumAsEvaluated(EventsAt(o, universe, dependencies, d, k), d, At(rs, k), NodeWalk.ResolveDependency(o, universe, d, dependencies[d]).m[k], v);
    }
    forall to | to in v.edgesOut ensures exists d :: Resolves(o, universe, dependencies, d) && ConnectedTo(EventsAt(o, universe, dependencies, d, k), to) {
      var x :| x in At(rs, k) && to in x.edgesOut;
      var d := InstanceFrom(o, universe, dependencies, order, k, x);
      InstanceOf(o, universe, dependencies, order, d, k);
      assert Resolves(o, universe, dependencies, d) && ConnectedTo(EventsAt(o, universe, dependencies, d, k), to);
    }
  }

  ghost predicate ConnectedTo(es: seq<Event>, to: Key) {
    exists e :: e in es && e.Connected? && e.dst.GetKey() == to
  }

  ghost predicate AsEvaluated(es: seq<Event>, v: Instance) {
    && (forall p :: p in Discoveries(es) ==> v.discovery.DeepEqual(p))
    && (v.isCode <==> Codes(es) != []) && (forall p :: p in Codes(es) ==> v.codeParams.DeepEqual(p))
    && (forall to :: ConnectedTo(es, to) ==> to in v.edgesOut)
  }

  lemma SumAsEvaluated(es: seq<Event>, d: Key, xs: seq<Instance>, x: Instance, v: Instance)
    requires Sums(xs, v) && !v.error && x in xs && Describes(es, d, x)
    requires (forall p :: p in Discoveries(es) ==> x.discovery == p) && forall p :: p in Codes(es) ==> x.codeParams == p
    ensures AsEvaluated(es, v)
  {
    assert Compatible(v, x);
  }

  /** Endpoints are for the actual state only. */
  lemma {:induction false} MergedEndpoints(rs: seq<StateMap>)
    requires forall r: StateMap, k :: r in rs && k in r ==> !r[k].endpointsUpToDate
    ensures forall k :: k in MergeAll(rs) ==> !MergeAll(rs)[k].endpointsUpToDate
  {
    if rs != [] {
      var front, last := rs[..|rs| - 1], rs[|rs| - 1];
      assert last in rs && forall r :: r in front ==> r in rs;
      MergedEndpoints(front);
    }
  }

  lemma NoEndpointsDesired<S(!new)>(o: Oracle<S>, universe: set<Key>, dependencies: map<Key, S>, order: seq<Key>)
    requires ValidOracle(o, universe) && IsOrderOf(order, dependencies.Keys)
    ensures var m := MergeAll(Resolutions(o, universe, dependencies, order)); forall k :: k in m ==> !m[k].endpointsUpToDate
  {
    var rs := Resolutions(o, universe, dependencies, order);
    forall r: StateMap, k | r in rs && k in r ensures !r[k].endpointsUpToDate {
      var d := ResolutionFrom(o, universe, dependencies, order, r);
      ResolvedAsTraced(o, universe, d, dependencies[d], k);
    }
    MergedEndpoints(rs);
  }

  /**
   In terms of the policy: whenever a component matches in a visit that a dependency makes, the desired state has
   an instance for it, held by the dependency, and without a conflict with the parameters evaluated then.
   */
  lemma PolicyIsDesired<S(!new)>(o: Oracle<S>, universe: set<Key>, dependencies: map<Key, S>, order: seq<Key>, d: Key, t: Take<S>) returns (k: Key)
    requires ValidOracle(o, universe) && IsOrderOf(order, dependencies.Keys) && Resolves(o, universe, dependencies, d)
    requires t in TakesOf(o, Visits(o, universe, dependencies[d]))
    ensures var m := MergeAll(Resolutions(o, universe, dependencies, order));
      && k in m && IsOf(m[k].cik, t) && d in m[k].dependencyKeys && o.discover(t.scope, t.name).Some?
      && (!m[k].error ==> m[k].discovery.DeepEqual(o.discover(t.scope, t.name).value.0) && KindDesired(o, t, m[k]))
  {
    var rs, r := Resolutions(o, universe, dependencies, order), NodeWalk.ResolveDependency(o, universe, d, dependencies[d]).m;
    k := EvaluatedIsStored(o, universe, d, dependencies[d], t);
    InstanceOf(o, universe, dependencies, order, d, k);
    HeldIff(o, universe, d, dependencies[d], k, d);
    MergedFrom(o, universe, dependencies, order, k);
    TakenAsSum(o, t, At(rs, k), r[k], MergeAll(rs)[k], d);
    SumIsOf(o, universe, dependencies, order, d, k, t);
  }

  ghost predicate KindDesired<S(!new)>(o: Oracle<S>, t: Take<S>, v: Instance)
    requires o.discover(t.scope, t.name).Some?
  {
    match KindOf(o, t)
    case Code(params) => params.Some? && v.isCode && v.codeParams.DeepEqual(params.value)
    case Contract(child) => !v.isCode && o.enter(child).Some? && o.enter(child).value.cik.GetKey() in v.edgesOut
    case Neither => !v.isCode
  }

  lemma TakenAsSum<S(!new)>(o: Oracle<S>, t: Take<S>, xs: seq<Instance>, x: Instance, v: Instance, d: Key)
    requires Sums(xs, v) && x in xs && StoredAs(o, t, x) && d in x.dependencyKeys
    ensures d in v.dependencyKeys
    ensures !v.error ==> v.discovery.DeepEqual(o.discover(t.scope, t.name).value.0) && KindDesired(o, t, v)
  {
    if !v.error {
      assert Compatible(v, x);
    }
  }

  lemma SumIsOf<S(!new)>(o: Oracle<S>, universe: set<Key>, dependencies: map<Key, S>, order: seq<Key>, d: Key, k: Key, t: Take<S>)
    requires ValidOracle(o, universe) && IsOrderOf(order, dependencies.Keys) && Resolves(o, universe, dependencies, d)
    requires k in NodeWalk.ResolveDependency(o, universe, d, dependencies[d]).m
    requires IsOf(NodeWalk.ResolveDependency(o, universe, d, dependencies[d]).m[k].cik, t)
    requires k in MergeAll(Resolutions(o, universe, dependencies, order))
    ensures IsOf(MergeAll(Resolutions(o, universe, dependencies, order))[k].cik, t)
  {
    var rs := Resolutions(o, universe, dependencies, order);
    MergedFrom(o, universe, dependencies, order, k);
    InstanceOf(o, universe, dependencies, order, d, k);
    var x :| x in At(rs, k) && MergeAll(rs)[k].cik == x.cik;
    var d' := InstanceFrom(o, universe, dependencies, order, k, x);
    ParentDetermined(x.cik, NodeWalk.ResolveDependency(o, universe, d, dependencies[d]).m[k].cik);
  }
}

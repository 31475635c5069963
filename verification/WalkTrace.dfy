/**
 What a walk evaluates and records, in order, from the oracle alone; and what the resolution of a dependency
 contains in terms of it.
 */
module WalkTrace {
  import opened Prelude
  import opened ComponentKey
  import opened Instances
  import opened Resolution
  import opened NodeWalk

  /** Something that is recorded about an instance. */
  datatype Event =
    | Entered(cik: ComponentInstanceKey)
    | Connected(cik: ComponentInstanceKey, dst: ComponentInstanceKey)
    | Discovered(cik: ComponentInstanceKey, params: Params)
    | Coded(cik: ComponentInstanceKey, params: Params)
    | Held(cik: ComponentInstanceKey, depth: nat)

  datatype Trace<+S> = Trace(events: seq<Event>, scope: S, end: End)

  // ---- The events of a walk, which knows nothing of conflicts.

  /** A node: the depth is the number of services above it. */
  ghost function TraceNode<S(!new)>(o: Oracle<S>, universe: set<Key>, scope: S, arrival: Option<ComponentInstanceKey>, path: seq<Key>): (t: Trace<S>)
    requires ValidOracle(o, universe)
    ensures t.end != Stopped
    decreases Left(universe, path), 0, 0
  {
    match o.enter(scope)
    case None => Trace([], scope, Failed)
    case Some(service) =>
      if service.cik.GetKey() in path then Trace([], scope, Failed)
      else
        FewerLeft(universe, path, service.cik.GetKey());
        TraceService(o, universe, service, arrival, path + [service.cik.GetKey()])
  }

  ghost function TraceService<S(!new)>(o: Oracle<S>, universe: set<Key>, service: Service<S>, arrival: Option<ComponentInstanceKey>, path: seq<Key>): (t: Trace<S>)
    requires ValidOracle(o, universe) && path != []
    ensures t.end != Stopped
    decreases Left(universe, path), if service.components.Some? then |service.components.value| + 1 else 0, 0
  {
    var entry := Arrival(arrival, service.cik);
    match service.components
    case None => Trace(entry, service.scope, Failed)
    case Some(components) =>
      ServiceTrace(entry, TraceComponents(o, universe, service.scope, service.cik, components, path), Held(service.cik, |path| - 1))
  }

  /** The service itself is recorded last, unless a criteria error has ended the loop over its components. */
  function ServiceTrace<S>(entry: seq<Event>, t: Trace<S>, last: Event): Trace<S> {
    match t.end
    case Completed => Trace(entry + t.events + [last], t.scope, Completed)
    case Stopped => Trace(entry + t.events, t.scope, Completed)
    case Failed => Trace(entry + t.events, t.scope, Failed)
  }

  function Arrival(arrival: Option<ComponentInstanceKey>, service: ComponentInstanceKey): seq<Event> {
    [Entered(service)] + if arrival.Some? then [Connected(arrival.value, service)] else []
  }

  /** The loop over components ends early at a criteria error. */
  ghost function TraceComponents<S(!new)>(o: Oracle<S>, universe: set<Key>, scope: S, service: ComponentInstanceKey,
                                          components: seq<string>, path: seq<Key>): Trace<S>
    requires ValidOracle(o, universe) && path != []
    decreases Left(universe, path), |components|, 0
  {
    if components == [] then Trace([], scope, Completed)
    else
      var name, rest := components[0], components[1..];
      match o.matches(scope, name)
      case CriteriaError => Trace([], scope, Stopped)
      case NotMatched => TraceComponents(o, universe, scope, service, rest, path)
      case Matched =>
        var cik := ComponentKeyOf(service, name);
        var entry := [Connected(service, cik), Entered(cik)];
        var t := TraceComponent(o, universe, scope, name, cik, path);
        RoundTrace(entry, t, Held(cik, |path| - 1), TraceComponents(o, universe, t.scope, service, rest, path))
  }

  /** A component is recorded last, and then come the others. */
  function RoundTrace<S>(entry: seq<Event>, t: Trace<S>, last: Event, rest: Trace<S>): Trace<S> {
    if t.end != Completed then t.(events := entry + t.events)
    else rest.(events := entry + t.events + [last] + rest.events)
  }

  ghost function TraceComponent<S(!new)>(o: Oracle<S>, universe: set<Key>, scope: S, name: string, cik: ComponentInstanceKey, path: seq<Key>): (t: Trace<S>)
    requires ValidOracle(o, universe) && path != []
    ensures t.end != Stopped
    decreases Left(universe, path), 0, 2
  {
    match o.discover(scope, name)
    case None => Trace([], scope, Failed)
    case Some((params, scope1)) =>
      var t := TraceKind(o, universe, scope1, name, cik, path);
      t.(events := [Discovered(cik, params)] + t.events)
  }

  ghost function TraceKind<S(!new)>(o: Oracle<S>, universe: set<Key>, scope: S, name: string, cik: ComponentInstanceKey, path: seq<Key>): (t: Trace<S>)
    requires ValidOracle(o, universe) && path != []
    ensures t.end != Stopped
    decreases Left(universe, path), 0, 1
  {
    match o.kind(scope, name)
    case Code(None) => Trace([], scope, Failed)
    case Code(Some(params)) => Trace([Coded(cik, params)], scope, Completed)
    case Contract(child) =>
      var t := TraceNode(o, universe, child, Some(cik), path);
      t.(scope := o.back(scope, name, t.scope))
    case Neither => Trace([], scope, Completed)
  }

  /** The trace of a dependency with the given scope. */
  ghost function TraceOf<S(!new)>(o: Oracle<S>, universe: set<Key>, scope: S): Trace<S>
    requires ValidOracle(o, universe)
  {
    TraceNode(o, universe, scope, None, [])
  }

  // ---- A walk records the events of its trace, up to a conflict.

  datatype Replayed = Replayed(ok: bool, m: StateMap)

  function Applied(m: StateMap, d: Key, e: Event): Replayed {
    match e
    case Entered(cik) => Replayed(true, LabelsRecorded(m, cik))
    case Connected(cik, dst) => Replayed(true, EdgeStored(m, Some(cik), dst))
    case Discovered(cik, p) => Replayed(AddParams(EntryOf(m, cik).discovery, p).Some?, DiscoveryRecorded(m, cik, p))
    case Coded(cik, p) => Replayed(AddParams(EntryOf(m, cik).codeParams, p).Some?, CodeRecorded(m, cik, p))
    case Held(cik, depth) => Replayed(true, ResolvedRecorded(m, cik, d, depth))
  }

  function Replay(m: StateMap, d: Key, events: seq<Event>): Replayed {
    if events == [] then Replayed(true, m)
    else
      var r := Replay(m, d, events[..|events| - 1]);
      if r.ok then Applied(r.m, d, events[|events| - 1]) else r
  }

  function After(r: Replayed, d: Key, events: seq<Event>): Replayed {
    if r.ok then Replay(r.m, d, events) else r
  }

  lemma {:induction false} ReplayBoth(m: StateMap, d: Key, a: seq<Event>, b: seq<Event>)
    ensures Replay(m, d, a + b) == After(Replay(m, d, a), d, b)
  {
    if b == [] {
      assert a + b == a;
    } else {
      var front, last := b[..|b| - 1], b[|b| - 1];
      assert a + b == (a + front) + [last];
      assert (a + b)[..|a + b| - 1] == a + front;
      ReplayBoth(m, d, a, front);
    }
  }

  lemma ReplayOne(m: StateMap, d: Key, e: Event)
    ensures Replay(m, d, [e]) == Applied(m, d, e)
  {
    assert [e][..0] == [];
  }

  ghost predicate IsReplay<S(!new)>(w: Walked<S>, r: Replayed, t: Trace<S>) {
    && w.m == r.m && w.end == (if r.ok then t.end else Failed)
    && (w.end != Failed ==> w.scope == t.scope)
  }

  lemma ArrivalReplayed(m: StateMap, d: Key, arrival: Option<ComponentInstanceKey>, service: ComponentInstanceKey)
    ensures Replay(m, d, Arrival(arrival, service)) == Replayed(true, EdgeStored(LabelsRecorded(m, service), arrival, service))
  {
    ReplayOne(m, d, Entered(service));
    if arrival.Some? {
      ReplayBoth(m, d, [Entered(service)], [Connected(arrival.value, service)]);
      ReplayOne(LabelsRecorded(m, service), d, Connected(arrival.value, service));
    } else {
      assert Arrival(arrival, service) == [Entered(service)];
    }
  }

  lemma EntryReplayed(m: StateMap, d: Key, service: ComponentInstanceKey, cik: ComponentInstanceKey)
    ensures Replay(m, d, [Connected(service, cik), Entered(cik)]) == Replayed(true, LabelsRecorded(EdgeStored(m, Some(service), cik), cik))
  {
    ReplayOne(m, d, Connected(service, cik));
    ReplayBoth(m, d, [Connected(service, cik)], [Entered(cik)]);
    ReplayOne(EdgeStored(m, Some(service), cik), d, Entered(cik));
    assert [Connected(service, cik)] + [Entered(cik)] == [Connected(service, cik), Entered(cik)];
  }

  lemma {:induction false} NodeIsReplay<S(!new)>(o: Oracle<S>, universe: set<Key>, d: Key, scope: S, arrival: Option<ComponentInstanceKey>,
                                                 path: seq<Key>, m: StateMap)
    requires ValidOracle(o, universe)
    ensures var t := TraceNode(o, universe, scope, arrival, path);
      IsReplay(Walk(o, universe, d, scope, arrival, path, |path|, m), Replay(m, d, t.events), t)
    decreases Left(universe, path), 0, 0
  {
    if o.enter(scope).Some? && o.enter(scope).value.cik.GetKey() !in path {
      var service := o.enter(scope).value;
      FewerLeft(universe, path, service.cik.GetKey());
      ServiceIsReplay(o, universe, d, service, arrival, path + [service.cik.GetKey()], m);
    }
  }

  lemma {:induction false} ServiceIsReplay<S(!new)>(o: Oracle<S>, universe: set<Key>, d: Key, service: Service<S>, arrival: Option<ComponentInstanceKey>,
                                                    path: seq<Key>, m: StateMap)
    requires ValidOracle(o, universe) && path != []
    ensures var t := TraceService(o, universe, service, arrival, path);
      IsReplay(WalkService(o, universe, d, service, arrival, path, |path| - 1, m), Replay(m, d, t.events), t)
    decreases Left(universe, path), if service.components.Some? then |service.components.value| + 2 else 0, 0
  {
    var entry, m1 := Arrival(arrival, service.cik), EdgeStored(LabelsRecorded(m, service.cik), arrival, service.cik);
    ArrivalReplayed(m, d, arrival, service.cik);
    if service.components.Some? {
      var components := service.components.value;
      var c, t := WalkComponents(o, universe, d, service.scope, service.cik, components, path, |path| - 1, m1),
                  TraceComponents(o, universe, service.scope, service.cik, components, path);
      ComponentsAreReplay(o, universe, d, service.scope, service.cik, components, path, m1);
      ServiceParts(o, universe, d, service, arrival, path, |path| - 1, m);
      EndIsReplay(m, m1, d, entry, c, t, service.cik, |path| - 1,
                  WalkService(o, universe, d, service, arrival, path, |path| - 1, m), TraceService(o, universe, service, arrival, path));
    }
  }

  lemma ServiceParts<S(!new)>(o: Oracle<S>, universe: set<Key>, d: Key, service: Service<S>, arrival: Option<ComponentInstanceKey>,
                              path: seq<Key>, depth: nat, m: StateMap)
    requires ValidOracle(o, universe) && path != [] && depth == |path| - 1 && service.components.Some?
    ensures WalkService(o, universe, d, service, arrival, path, depth, m)
         == ServiceWalked(WalkComponents(o, universe, d, service.scope, service.cik, service.components.value, path, depth,
                                         EdgeStored(LabelsRecorded(m, service.cik), arrival, service.cik)), service.cik, d, depth)
    ensures TraceService(o, universe, service, arrival, path)
         == ServiceTrace(Arrival(arrival, service.cik),
                         TraceComponents(o, universe, service.scope, service.cik, service.components.value, path), Held(service.cik, depth))
  {
  }

  /** What a service makes of the walk of its components. */
  function ServiceWalked<S>(c: Walked<S>, service: ComponentInstanceKey, d: Key, depth: nat): Walked<S> {
    match c.end
    case Completed => c.(m := ResolvedRecorded(c.m, service, d, depth))
    case Stopped => c.(end := Completed)
    case Failed => c
  }

  lemma EndIsReplay<S(!new)>(m: StateMap, m1: StateMap, d: Key, entry: seq<Event>, c: Walked<S>, t: Trace<S>, service: ComponentInstanceKey, depth: nat,
                             w: Walked<S>, all: Trace<S>)
    requires Replay(m, d, entry) == Replayed(true, m1) && IsReplay(c, Replay(m1, d, t.events), t)
    requires w == ServiceWalked(c, service, d, depth) && all == ServiceTrace(entry, t, Held(service, depth))
    ensures IsReplay(w, Replay(m, d, all.events), all)
  {
    var last := Held(service, depth);
    ReplayBoth(m, d, entry, t.events);
    ReplayBoth(m, d, entry + t.events, [last]);
    ReplayOne(Replay(m1, d, t.events).m, d, last);
  }

  lemma {:induction false} ComponentsAreReplay<S(!new)>(o: Oracle<S>, universe: set<Key>, d: Key, scope: S, service: ComponentInstanceKey,
                                                        components: seq<string>, path: seq<Key>, m: StateMap)
    requires ValidOracle(o, universe) && path != []
    ensures var t := TraceComponents(o, universe, scope, service, components, path);
      IsReplay(WalkComponents(o, universe, d, scope, service, components, path, |path| - 1, m), Replay(m, d, t.events), t)
    decreases Left(universe, path), |components|, 2
  {
    if components != [] {
      var name, rest := components[0], components[1..];
      match o.matches(scope, name)
      case CriteriaError =>
      case NotMatched => ComponentsAreReplay(o, universe, d, scope, service, rest, path, m);
      case Matched =>
        assert components == [name] + rest;
        MatchedIsReplay(o, universe, d, scope, service, name, rest, path, m);
    }
  }

  lemma {:induction false} MatchedIsReplay<S(!new)>(o: Oracle<S>, universe: set<Key>, d: Key, scope: S, service: ComponentInstanceKey,
                                                    name: string, rest: seq<string>, path: seq<Key>, m: StateMap)
    requires ValidOracle(o, universe) && path != [] && o.matches(scope, name) == Matched
    ensures var t := TraceComponents(o, universe, scope, service, [name] + rest, path);
      IsReplay(WalkComponents(o, universe, d, scope, service, [name] + rest, path, |path| - 1, m), Replay(m, d, t.events), t)
    decreases Left(universe, path), |rest| + 1, 1
  {
    var w, t, c, r := PartsAreReplay(o, universe, d, scope, service, name, rest, path, m);
    RoundIsReplay(m, d, service, ComponentKeyOf(service, name), |path| - 1, w, t, c, r,
                  WalkComponents(o, universe, d, scope, service, [name] + rest, path, |path| - 1, m),
                  TraceComponents(o, universe, scope, service, [name] + rest, path));
  }

  /** The walk and the trace of the component, and those of the rest. */
  lemma {:induction false} PartsAreReplay<S(!new)>(o: Oracle<S>, universe: set<Key>, d: Key, scope: S, service: ComponentInstanceKey,
                                                   name: string, rest: seq<string>, path: seq<Key>, m: StateMap)
    returns (w: Walked<S>, t: Trace<S>, c: Walked<S>, r: Trace<S>)
    requires ValidOracle(o, universe) && path != [] && o.matches(scope, name) == Matched
    ensures WalkComponents(o, universe, d, scope, service, [name] + rest, path, |path| - 1, m) == if w.end != Completed then w else c
    ensures var cik := ComponentKeyOf(service, name);
      && TraceComponents(o, universe, scope, service, [name] + rest, path)
         == RoundTrace([Connected(service, cik), Entered(cik)], t, Held(cik, |path| - 1), r)
      && IsReplay(w, Replay(LabelsRecorded(EdgeStored(m, Some(service), cik), cik), d, t.events), t)
      && (w.end == Completed ==> IsReplay(c, Replay(ResolvedRecorded(w.m, cik, d, |path| - 1), d, r.events), r))
    decreases Left(universe, path), |rest| + 1, 0
  {
    var cik := ComponentKeyOf(service, name);
    var m1 := LabelsRecorded(EdgeStored(m, Some(service), cik), cik);
    w, t := WalkComponent(o, universe, d, scope, name, cik, path, |path| - 1, m1), TraceComponent(o, universe, scope, name, cik, path);
    var m2 := ResolvedRecorded(w.m, cik, d, |path| - 1);
    c, r := WalkComponents(o, universe, d, w.scope, service, rest, path, |path| - 1, m2), TraceComponents(o, universe, t.scope, service, rest, path);
    ComponentIsReplay(o, universe, d, scope, name, cik, path, m1);
    if w.end == Completed {
      ComponentsAreReplay(o, universe, d, w.scope, service, rest, path, m2);
    }
    MatchedWalk(o, universe, d, scope, service, name, rest, path, |path| - 1, m);
    MatchedTrace(o, universe, scope, service, name, rest, path);
  }

  lemma MatchedTrace<S(!new)>(o: Oracle<S>, universe: set<Key>, scope: S, service: ComponentInstanceKey, name: string, rest: seq<string>, path: seq<Key>)
    requires ValidOracle(o, universe) && path != [] && o.matches(scope, name) == Matched
    ensures var cik := ComponentKeyOf(service, name);
      var t := TraceComponent(o, universe, scope, name, cik, path);
      TraceComponents(o, universe, scope, service, [name] + rest, path)
      == RoundTrace([Connected(service, cik), Entered(cik)], t, Held(cik, |path| - 1), TraceComponents(o, universe, t.scope, service, rest, path))
  {
    assert ([name] + rest)[1..] == rest;
  }

  lemma MatchedWalk<S(!new)>(o: Oracle<S>, universe: set<Key>, d: Key, scope: S, service: ComponentInstanceKey,
                             name: string, rest: seq<string>, path: seq<Key>, depth: nat, m: StateMap)
    requires ValidOracle(o, universe) && o.matches(scope, name) == Matched
    ensures var cik := ComponentKeyOf(service, name);
      var w := WalkComponent(o, universe, d, scope, name, cik, path, depth, LabelsRecorded(EdgeStored(m, Some(service), cik), cik));
      WalkComponents(o, universe, d, scope, service, [name] + rest, path, depth, m)
      == if w.end != Completed then w
         else WalkComponents(o, universe, d, w.scope, service, rest, path, depth, ResolvedRecorded(w.m, cik, d, depth))
  {
    assert ([name] + rest)[1..] == rest;
  }

  /** One component, and those that come after it. */
  lemma RoundIsReplay<S(!new)>(m: StateMap, d: Key, service: ComponentInstanceKey, cik: ComponentInstanceKey, depth: nat,
                               w: Walked<S>, t: Trace<S>, c: Walked<S>, r: Trace<S>, v: Walked<S>, all: Trace<S>)
    requires v == if w.end != Completed then w else c
    requires all == RoundTrace([Connected(service, cik), Entered(cik)], t, Held(cik, depth), r)
    requires IsReplay(w, Replay(LabelsRecorded(EdgeStored(m, Some(service), cik), cik), d, t.events), t)
    requires w.end == Completed ==> IsReplay(c, Replay(ResolvedRecorded(w.m, cik, d, depth), d, r.events), r)
    ensures IsReplay(v, Replay(m, d, all.events), all)
  {
    var entry := [Connected(service, cik), Entered(cik)];
    EntryReplayed(m, d, service, cik);
    ReplayBoth(m, d, entry, t.events);
    if t.end == Completed {
      if w.end == Completed {
        RestReplayed(m, d, entry + t.events, w.m, cik, depth, r.events);
      } else {
        FailedReplayed(m, d, entry + t.events, Held(cik, depth), r.events);
      }
    }
  }

  lemma RestReplayed(m: StateMap, d: Key, front: seq<Event>, m1: StateMap, cik: ComponentInstanceKey, depth: nat, rest: seq<Event>)
    requires Replay(m, d, front) == Replayed(true, m1)
    ensures Replay(m, d, front + [Held(cik, depth)] + rest) == Replay(ResolvedRecorded(m1, cik, d, depth), d, rest)
  {
    ReplayBoth(m, d, front, [Held(cik, depth)]);
    ReplayOne(m1, d, Held(cik, depth));
    ReplayBoth(m, d, front + [Held(cik, depth)], rest);
  }

  lemma FailedReplayed(m: StateMap, d: Key, front: seq<Event>, e: Event, rest: seq<Event>)
    requires !Replay(m, d, front).ok
    ensures Replay(m, d, front + [e] + rest) == Replay(m, d, front)
  {
    ReplayBoth(m, d, front, [e]);
    ReplayBoth(m, d, front + [e], rest);
  }

  lemma {:induction false} ComponentIsReplay<S(!new)>(o: Oracle<S>, universe: set<Key>, d: Key, scope: S, name: string, cik: ComponentInstanceKey,
                                                      path: seq<Key>, m: StateMap)
    requires ValidOracle(o, universe) && path != []
    ensures var t := TraceComponent(o, universe, scope, name, cik, path);
      IsReplay(WalkComponent(o, universe, d, scope, name, cik, path, |path| - 1, m), Replay(m, d, t.events), t)
    decreases Left(universe, path), 0, 2
  {
    if o.discover(scope, name).Some? {
      var (params, scope1) := o.discover(scope, name).value;
      var m1 := DiscoveryRecorded(m, cik, params);
      var t := TraceKind(o, universe, scope1, name, cik, path);
      ReplayOne(m, d, Discovered(cik, params));
      ReplayBoth(m, d, [Discovered(cik, params)], t.events);
      KindIsReplay(o, universe, d, scope1, name, cik, path, m1);
    }
  }

  lemma {:induction false} KindIsReplay<S(!new)>(o: Oracle<S>, universe: set<Key>, d: Key, scope: S, name: string, cik: ComponentInstanceKey,
                                                 path: seq<Key>, m: StateMap)
    requires ValidOracle(o, universe) && path != []
    ensures var t := TraceKind(o, universe, scope, name, cik, path);
      IsReplay(WalkKind(o, universe, d, scope, name, cik, path, |path| - 1, m), Replay(m, d, t.events), t)
    decreases Left(universe, path), 0, 1
  {
    match o.kind(scope, name)
    case Code(None) =>
    case Code(Some(params)) => ReplayOne(m, d, Coded(cik, params));
    case Contract(child) => NodeIsReplay(o, universe, d, child, Some(cik), path, m);
    case Neither =>
  }
}

/** The contents of a resolution, entry by entry and field by field, in terms of what its walk has evaluated. */
module WalkContents {
  import opened Prelude
  import opened ComponentKey
  import opened Instances
  import opened Resolution
  import opened NodeWalk
  import opened WalkTrace
  import opened WalkShapes

  // ---- The events of one instance.

  /** Those that are about the instance with the given key, in order. */
  function About(events: seq<Event>, k: Key): seq<Event> {
    if events == [] then []
    else About(events[..|events| - 1], k) + if events[|events| - 1].cik.GetKey() == k then [events[|events| - 1]] else []
  }

  /** The discovery parameters evaluated, in order. */
  function Discoveries(es: seq<Event>): seq<Params> {
    if es == [] then []
    else Discoveries(es[..|es| - 1]) + if es[|es| - 1].Discovered? then [es[|es| - 1].params] else []
  }

  /** The code parameters evaluated, in order. */
  function Codes(es: seq<Event>): seq<Params> {
    if es == [] then []
    else Codes(es[..|es| - 1]) + if es[|es| - 1].Coded? then [es[|es| - 1].params] else []
  }

  /** The depths at which the instance is recorded, in order. */
  function Depths(es: seq<Event>): seq<nat> {
    if es == [] then []
    else Depths(es[..|es| - 1]) + if es[|es| - 1].Held? then [es[|es| - 1].depth] else []
  }

  // ---- What becomes of them.

  /** After parameters that are not empty only the same ones come. */
  ghost predicate Repeats(ps: seq<Params>) {
    forall i, j :: 0 <= i < j < |ps| ==> ps[i].Empty() || ps[j] == ps[i]
  }

  /** The parameters that are stored: those that are not empty, if there are any, and the last ones otherwise. */
  ghost predicate Stores(ps: seq<Params>, p: Params) {
    && (forall q :: q in ps && !q.Empty() ==> p == q)
    && ((forall q :: q in ps ==> q.Empty()) ==> p == if ps == [] then Params(map[]) else ps[|ps| - 1])
  }

  /** Each edge leads to an instance that a connection has been made to, and each connection gives an edge. */
  ghost predicate HasEdgesOf(es: seq<Event>, x: Instance) {
    forall to :: to in x.edgesOut <==> exists e :: e in es && e.Connected? && e.dst.GetKey() == to
  }

  ghost predicate HasParamsOf(es: seq<Event>, x: Instance) {
    (x.isCode <==> Codes(es) != []) && Stores(Discoveries(es), x.discovery) && Stores(Codes(es), x.codeParams)
  }

  /** The dependency holds the instance at the depth recorded last. */
  predicate HeldAsLast(depths: seq<nat>, d: Key, x: Instance) {
    x.dependencyKeys == if depths == [] then map[] else map[d := depths[|depths| - 1]]
  }

  ghost predicate Describes(es: seq<Event>, d: Key, x: Instance) {
    && es != [] && x.cik == es[0].cik && HasEdgesOf(es, x) && HasParamsOf(es, x) && HeldAsLast(Depths(es), d, x)
    && !x.error && !x.endpointsUpToDate
  }

  ghost predicate Recorded(es: seq<Event>, d: Key, v: Option<Instance>) {
    if v.None? then es == [] else Describes(es, d, v.value)
  }

  /** Nothing is evaluated differently for the same instance. */
  ghost predicate Unopposed(es: seq<Event>) {
    Repeats(Discoveries(es)) && Repeats(Codes(es))
  }

  // ---- One more event.

  lemma AboutMore(events: seq<Event>, e: Event, k: Key)
    ensures About(events + [e], k) == if e.cik.GetKey() == k then About(events, k) + [e] else About(events, k)
  {
    assert (events + [e])[..|events|] == events;
  }

  lemma ListsMore(es: seq<Event>, e: Event)
    ensures Discoveries(es + [e]) == if e.Discovered? then Discoveries(es) + [e.params] else Discoveries(es)
    ensures Codes(es + [e]) == if e.Coded? then Codes(es) + [e.params] else Codes(es)
    ensures Depths(es + [e]) == if e.Held? then Depths(es) + [e.depth] else Depths(es)
  {
    assert (es + [e])[..|es|] == es;
  }

  lemma RepeatsMore(ps: seq<Params>, q: Params)
    ensures Repeats(ps + [q]) <==> Repeats(ps) && forall p :: p in ps ==> p.Empty() || q == p
  {
    var qs := ps + [q];
    assert forall i :: 0 <= i < |ps| ==> qs[i] == ps[i];
    if Repeats(qs) {
      forall i, j | 0 <= i < j < |ps| ensures ps[i].Empty() || ps[j] == ps[i] {
        assert qs[i].Empty() || qs[j] == qs[i];
      }
      forall p | p in ps ensures p.Empty() || q == p {
        var i :| 0 <= i < |ps| && ps[i] == p;
        assert qs[i].Empty() || qs[|ps|] == qs[i];
      }
    }
  }

  /** Recording parameters over those stored before. */
  lemma StoresMore(ps: seq<Params>, p: Params, q: Params)
    requires Repeats(ps) && Stores(ps, p)
    ensures AddParams(p, q).Some? <==> Repeats(ps + [q])
    ensures AddParams(p, q).Some? ==> Stores(ps + [q], AddParams(p, q).value)
  {
    RepeatsMore(ps, q);
    var qs := ps + [q];
    assert forall x :: x in qs <==> x in ps || x == q;
    if x :| x in ps && !x.Empty() {
      assert p == x;
    } else if ps != [] {
      assert ps[|ps| - 1] in ps;
    }
  }

  /** What an event makes of the entry it is about. */
  function Changed(v: Option<Instance>, d: Key, e: Event): Instance {
    var x := if v.Some? then v.value else NewInstance(e.cik);
    match e
    case Entered(_) => x
    case Connected(_, dst) => WithEdgeOut(x, dst.GetKey())
    case Discovered(_, p) => WithDiscoveryParams(x, p)
    case Coded(_, p) => WithCode(x, p)
    case Held(_, depth) => WithDependency(x, d, depth)
  }

  lemma AppliedEntry(m: StateMap, d: Key, e: Event)
    ensures Applied(m, d, e).m == m[e.cik.GetKey() := Changed(Lookup(m, e.cik.GetKey()), d, e)]
  {
  }

  lemma DescribesMore(es: seq<Event>, d: Key, v: Option<Instance>, e: Event)
    requires Recorded(es, d, v) && Unopposed(es + [e]) && Unopposed(es)
    ensures Describes(es + [e], d, Changed(v, d, e))
  {
    var x, y := if v.Some? then v.value else NewInstance(e.cik), Changed(v, d, e);
    RestUnchanged(v, x, d, e);
    EdgesMore(es, x, e, y);
    ParamsMore(es, d, v, x, e);
    DepthsMore(es, d, v, x, e);
  }

  lemma RestUnchanged(v: Option<Instance>, x: Instance, d: Key, e: Event)
    requires x == if v.Some? then v.value else NewInstance(e.cik)
    ensures var y := Changed(v, d, e);
      && y.cik == x.cik && y.error == x.error && y.endpointsUpToDate == x.endpointsUpToDate
      && y.edgesOut == x.edgesOut + (if e.Connected? then {e.dst.GetKey()} else {})
      && y.dependencyKeys == if e.Held? then x.dependencyKeys[d := e.depth] else x.dependencyKeys
  {
  }

  lemma DepthsMore(es: seq<Event>, d: Key, v: Option<Instance>, x: Instance, e: Event)
    requires HeldAsLast(Depths(es), d, x) && x == if v.Some? then v.value else NewInstance(e.cik)
    ensures HeldAsLast(Depths(es + [e]), d, Changed(v, d, e))
  {
    ListsMore(es, e);
    RestUnchanged(v, x, d, e);
  }

  lemma EdgesMore(es: seq<Event>, x: Instance, e: Event, y: Instance)
    requires HasEdgesOf(es, x) && y.edgesOut == x.edgesOut + if e.Connected? then {e.dst.GetKey()} else {}
    ensures HasEdgesOf(es + [e], y)
  {
    var all := es + [e];
    forall to ensures to in y.edgesOut <==> exists c :: c in all && c.Connected? && c.dst.GetKey() == to {
      if to in x.edgesOut {
        var c :| c in es && c.Connected? && c.dst.GetKey() == to;
        assert c in all;
      } else if to in y.edgesOut {
        assert e in all;
      }
    }
  }

  lemma ParamsMore(es: seq<Event>, d: Key, v: Option<Instance>, x: Instance, e: Event)
    requires HasParamsOf(es, x) && Unopposed(es + [e]) && Unopposed(es)
    requires x == if v.Some? then v.value else NewInstance(e.cik)
    ensures HasParamsOf(es + [e], Changed(v, d, e))
  {
    ListsMore(es, e);
    if e.Discovered? {
      DiscoveryStored(Discoveries(es), x, e.params);
    } else if e.Coded? {
      CodeStored(Codes(es), x, e.params);
    }
  }

  lemma DiscoveryStored(ps: seq<Params>, x: Instance, p: Params)
    requires Stores(ps, x.discovery) && Repeats(ps) && Repeats(ps + [p])
    ensures var y := WithDiscoveryParams(x, p);
      Stores(ps + [p], y.discovery) && y.codeParams == x.codeParams && y.isCode == x.isCode
  {
    StoresMore(ps, x.discovery, p);
  }

  lemma CodeStored(ps: seq<Params>, x: Instance, p: Params)
    requires Stores(ps, x.codeParams) && Repeats(ps) && Repeats(ps + [p])
    ensures var y := WithCode(x, p);
      Stores(ps + [p], y.codeParams) && y.discovery == x.discovery && y.isCode
  {
    StoresMore(ps, x.codeParams, p);
  }

  /** An event is refused exactly if it opposes what was evaluated before. */
  lemma AppliedOkIff(es: seq<Event>, m: StateMap, d: Key, e: Event)
    requires Recorded(es, d, Lookup(m, e.cik.GetKey())) && Unopposed(es)
    ensures Applied(m, d, e).ok <==> Unopposed(es + [e])
  {
    ListsMore(es, e);
    var x := EntryOf(m, e.cik);
    if e.Discovered? {
      StoresMore(Discoveries(es), x.discovery, e.params);
    }
    if e.Coded? {
      StoresMore(Codes(es), x.codeParams, e.params);
    }
  }

  ghost predicate AllUnopposed(events: seq<Event>) {
    forall k {:trigger About(events, k)} :: Unopposed(About(events, k))
  }

  ghost predicate AllRecorded(events: seq<Event>, d: Key, m: StateMap) {
    forall k {:trigger About(events, k)} :: Recorded(About(events, k), d, Lookup(m, k))
  }

  /** A replay comes to its end exactly if nothing is evaluated differently, and then contains what the events say. */
  lemma {:induction false} ReplayedContents(d: Key, events: seq<Event>)
    ensures var r := Replay(map[], d, events);
      (r.ok <==> AllUnopposed(events)) && (r.ok ==> AllRecorded(events, d, r.m))
  {
    if events == [] {
      forall k ensures About(events, k) == [] && Lookup<Key, Instance>(map[], k) == None {
      }
      assert Unopposed([]);
    } else {
      var front, e := events[..|events| - 1], events[|events| - 1];
      assert events == front + [e];
      ReplayedContents(d, front);
      if AllUnopposed(front) {
        OneMoreReplayed(d, front, e, Replay(map[], d, front).m);
      } else if AllUnopposed(events) {
        UnopposedBefore(front, e);
      }
    }
  }

  lemma StillOpposed(es: seq<Event>, e: Event)
    requires Unopposed(es + [e])
    ensures Unopposed(es)
  {
    ListsMore(es, e);
    if e.Discovered? {
      RepeatsMore(Discoveries(es), e.params);
    }
    if e.Coded? {
      RepeatsMore(Codes(es), e.params);
    }
  }

  lemma UnopposedBefore(events: seq<Event>, e: Event)
    requires AllUnopposed(events + [e])
    ensures AllUnopposed(events)
  {
    forall k ensures Unopposed(About(events, k)) {
      AboutMore(events, e, k);
      assert Unopposed(About(events + [e], k));
      if e.cik.GetKey() == k {
        StillOpposed(About(events, k), e);
      }
    }
  }

  lemma OneMoreReplayed(d: Key, events: seq<Event>, e: Event, m: StateMap)
    requires AllUnopposed(events) && AllRecorded(events, d, m)
    ensures Applied(m, d, e).ok <==> AllUnopposed(events + [e])
    ensures Applied(m, d, e).ok ==> AllRecorded(events + [e], d, Applied(m, d, e).m)
  {
    var es := About(events, e.cik.GetKey());
    AppliedOkIff(es, m, d, e);
    OneMoreUnopposed(events, e);
    if Unopposed(es + [e]) {
      OneMoreRecorded(d, events, e, m);
    }
  }

  lemma OneMoreUnopposed(events: seq<Event>, e: Event)
    requires AllUnopposed(events)
    ensures AllUnopposed(events + [e]) <==> Unopposed(About(events, e.cik.GetKey()) + [e])
  {
    AboutMore(events, e, e.cik.GetKey());
    forall k | k != e.cik.GetKey() ensures Unopposed(About(events + [e], k)) {
      AboutMore(events, e, k);
      assert Unopposed(About(events, k));
    }
  }

  lemma OneMoreRecorded(d: Key, events: seq<Event>, e: Event, m: StateMap)
    requires AllRecorded(events, d, m) && AllUnopposed(events) && Unopposed(About(events, e.cik.GetKey()) + [e])
    ensures AllRecorded(events + [e], d, Applied(m, d, e).m)
  {
    var c, m' := e.cik.GetKey(), Applied(m, d, e).m;
    AppliedEntry(m, d, e);
    forall k ensures Recorded(About(events + [e], k), d, Lookup(m', k)) {
      AboutMore(events, e, k);
      assert Recorded(About(events, k), d, Lookup(m, k));
      if k == c {
        DescribesMore(About(events, c), d, Lookup(m, c), e);
      }
    }
  }

  // ---- Whole walks.

  lemma WalkedAsTraced<S(!new)>(o: Oracle<S>, universe: set<Key>, d: Key, scope: S)
    requires ValidOracle(o, universe)
    ensures var w, t := ResolveDependency(o, universe, d, scope), TraceOf(o, universe, scope);
      && (w.end == Completed <==> t.end == Completed && AllUnopposed(t.events))
      && (w.end == Completed ==> AllRecorded(t.events, d, w.m))
  {
    var t := TraceOf(o, universe, scope);
    NodeIsReplay(o, universe, d, scope, None, [], map[]);
    ReplayedContents(d, t.events);
  }

  /**
   A dependency resolves if and only if its walk meets no error of the policy and no cycle of services, and
   never evaluates parameters for an instance that differ from parameters, not empty, evaluated for it before.
   */
  lemma ResolvesIff<S(!new)>(o: Oracle<S>, universe: set<Key>, d: Key, scope: S)
    requires ValidOracle(o, universe)
    ensures var t := TraceOf(o, universe, scope);
      ResolveDependency(o, universe, d, scope).end == Completed <==> t.end == Completed && AllUnopposed(t.events)
  {
    WalkedAsTraced(o, universe, d, scope);
  }

  /** Every field of every instance of a resolution, in terms of what has been evaluated for it. */
  lemma ResolvedAsTraced<S(!new)>(o: Oracle<S>, universe: set<Key>, d: Key, scope: S, k: Key)
    requires ValidOracle(o, universe) && ResolveDependency(o, universe, d, scope).end == Completed
    ensures var m, es := ResolveDependency(o, universe, d, scope).m, About(TraceOf(o, universe, scope).events, k);
      (k in m <==> es != []) && (k in m ==> Describes(es, d, m[k]))
  {
    WalkedAsTraced(o, universe, d, scope);
    assert Recorded(About(TraceOf(o, universe, scope).events, k), d, Lookup(ResolveDependency(o, universe, d, scope).m, k));
  }
}

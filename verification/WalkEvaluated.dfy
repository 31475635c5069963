/**
 What is recorded for an instance is what the oracle evaluates in the visits to its service: discovery and
 code parameters, and edges.
 */
module WalkEvaluated {
  import opened Prelude
  import opened ComponentKey
  import opened Instances
  import opened Resolution
  import opened NodeWalk
  import opened WalkTrace
  import opened WalkContents
  import opened WalkShapes

  /** A component that matches in a visit to a service, in the scope in which it is looked at. */
  datatype Take<+S> = Take(service: Key, scope: S, name: string)

  ghost function TakesOf<S(!new)>(o: Oracle<S>, visits: seq<Visit<S>>): set<Take<S>> {
    set v, p | v in visits && p in v.asked && o.matches(p.0, p.1) == Matched :: Take(v.service, p.0, p.1)
  }

  predicate IsOf<S>(cik: ComponentInstanceKey, t: Take<S>) {
    !cik.IsService() && Plain(cik.componentName) && cik.componentName == t.name && cik.GetParentServiceKey().GetKey() == t.service
  }

  /** What the component is: code with the parameters evaluated, or a contract. */
  function KindOf<S>(o: Oracle<S>, t: Take<S>): Kind<S>
    requires o.discover(t.scope, t.name).Some?
  {
    o.kind(o.discover(t.scope, t.name).value.1, t.name)
  }

  // ---- From the visits to what is recorded.

  ghost predicate KindRecorded<S(!new)>(o: Oracle<S>, kind: Kind<S>, cik: ComponentInstanceKey, events: seq<Event>) {
    match kind
    case Code(params) => params.Some? && Coded(cik, params.value) in events
    case Contract(child) => o.enter(child).Some? && Connected(cik, o.enter(child).value.cik) in events
    case Neither => true
  }

  ghost predicate OwnRecorded<S(!new)>(o: Oracle<S>, t: Take<S>, cik: ComponentInstanceKey, events: seq<Event>) {
    && o.discover(t.scope, t.name).Some? && Discovered(cik, o.discover(t.scope, t.name).value.0) in events
    && KindRecorded(o, KindOf(o, t), cik, events)
  }

  ghost predicate TakeRecorded<S(!new)>(o: Oracle<S>, t: Take<S>, events: seq<Event>) {
    exists service: ComponentInstanceKey :: RecordedUnder(o, t, service, events)
  }

  ghost predicate RecordedUnder<S(!new)>(o: Oracle<S>, t: Take<S>, service: ComponentInstanceKey, events: seq<Event>) {
    && service.IsService() && service.GetKey() == t.service && IsOf(ComponentKeyOf(service, t.name), t)
    && Connected(service, ComponentKeyOf(service, t.name)) in events
    && OwnRecorded(o, t, ComponentKeyOf(service, t.name), events)
  }

  ghost predicate AllTakesRecorded<S(!new)>(o: Oracle<S>, takes: set<Take<S>>, events: seq<Event>) {
    forall t {:trigger TakeRecorded(o, t, events)} :: t in takes ==> TakeRecorded(o, t, events)
  }

  lemma StillRecorded<S(!new)>(o: Oracle<S>, takes: set<Take<S>>, events: seq<Event>, events': seq<Event>)
    requires AllTakesRecorded(o, takes, events) && forall e :: e in events ==> e in events'
    ensures AllTakesRecorded(o, takes, events')
  {
    forall t | t in takes ensures TakeRecorded(o, t, events') {
      assert TakeRecorded(o, t, events);
      var service: ComponentInstanceKey :| RecordedUnder(o, t, service, events);
      assert RecordedUnder(o, t, service, events');
    }
  }

  // ---- And back.

  ghost predicate Evaluation<S(!new)>(o: Oracle<S>, t: Take<S>, e: Event) {
    && o.discover(t.scope, t.name).Some?
    && match e
       case Discovered(cik, p) => IsOf(cik, t) && p == o.discover(t.scope, t.name).value.0
       case Coded(cik, p) => IsOf(cik, t) && KindOf(o, t) == Code(Some(p))
       case Connected(cik, dst) =>
         if cik.IsService() then IsOf(dst, t) && cik.GetKey() == t.service
         else IsOf(cik, t) && KindOf(o, t).Contract? && o.enter(KindOf(o, t).child).Some? && dst == o.enter(KindOf(o, t).child).value.cik
       case _ => false
  }

  ghost predicate EventTaken<S(!new)>(o: Oracle<S>, takes: set<Take<S>>, e: Event) {
    e.Entered? || e.Held? || exists t :: t in takes && Evaluation(o, t, e)
  }

  ghost predicate AllTaken<S(!new)>(o: Oracle<S>, takes: set<Take<S>>, events: seq<Event>) {
    forall e {:trigger EventTaken(o, takes, e)} :: e in events ==> EventTaken(o, takes, e)
  }

  lemma StillTaken<S(!new)>(o: Oracle<S>, takes: set<Take<S>>, takes': set<Take<S>>, events: seq<Event>)
    requires AllTaken(o, takes, events) && takes <= takes'
    ensures AllTaken(o, takes', events)
  {
    forall e | e in events ensures EventTaken(o, takes', e) {
      assert EventTaken(o, takes, e);
    }
  }

  lemma TakenBoth<S(!new)>(o: Oracle<S>, takes: set<Take<S>>, a: seq<Event>, b: seq<Event>)
    requires AllTaken(o, takes, a) && AllTaken(o, takes, b)
    ensures AllTaken(o, takes, a + b)
  {
    forall e | e in a + b ensures EventTaken(o, takes, e) {
    }
  }

  // ---- Takes of more visits.

  lemma TakesBoth<S(!new)>(o: Oracle<S>, a: seq<Visit<S>>, b: seq<Visit<S>>)
    ensures TakesOf(o, a + b) == TakesOf(o, a) + TakesOf(o, b)
  {
    var all := a + b;
    forall t ensures t in TakesOf(o, all) <==> t in TakesOf(o, a) + TakesOf(o, b) {
      if v, p :| v in a && p in v.asked && o.matches(p.0, p.1) == Matched && t == Take(v.service, p.0, p.1) {
        assert v in all;
      }
      if v, p :| v in b && p in v.asked && o.matches(p.0, p.1) == Matched && t == Take(v.service, p.0, p.1) {
        assert v in all;
      }
    }
  }

  /** The takes of the round of a service. */
  ghost function RoundTakes<S(!new)>(o: Oracle<S>, service: Key, r: Round<S>): set<Take<S>> {
    TakesOf(o, r.visits) + TakesOf(o, [Visit(service, r.asked)])
  }

  lemma AskedMore<S(!new)>(o: Oracle<S>, service: Key, p: (S, string), asked: seq<(S, string)>)
    ensures TakesOf(o, [Visit(service, [p] + asked)])
         == TakesOf(o, [Visit(service, asked)]) + if o.matches(p.0, p.1) == Matched then {Take(service, p.0, p.1)} else {}
  {
    var one, more := Visit(service, asked), Visit(service, [p] + asked);
    assert one in [one] && more in [more];
    assert forall q :: q in [p] + asked <==> q == p || q in asked;
    forall t ensures t in TakesOf(o, [more])
      <==> t in TakesOf(o, [one]) + if o.matches(p.0, p.1) == Matched then {Take(service, p.0, p.1)} else {}
    {
    }
  }

  lemma NoTakes<S(!new)>(o: Oracle<S>, service: Key)
    ensures TakesOf<S>(o, []) == {} && TakesOf<S>(o, [Visit(service, [])]) == {}
  {
  }

  // ---- The whole walk.

  ghost predicate Fits<S(!new)>(o: Oracle<S>, takes: set<Take<S>>, t: Trace<S>, scope: S) {
    t.end != Failed ==> AllTakesRecorded(o, takes, t.events) && AllTaken(o, takes, t.events) && t.scope == scope
  }

  /** The node is reached from a component that consumes its contract. */
  ghost predicate ArrivedBy<S(!new)>(o: Oracle<S>, scope: S, arrival: Option<ComponentInstanceKey>, takes: set<Take<S>>) {
    arrival.Some? ==> exists t :: t in takes && IsArrival(o, scope, arrival.value, t)
  }

  predicate IsArrival<S(==)>(o: Oracle<S>, scope: S, arrival: ComponentInstanceKey, t: Take<S>) {
    IsOf(arrival, t) && o.discover(t.scope, t.name).Some? && KindOf(o, t) == Contract(scope)
  }

  lemma {:induction false} NodeEvaluated<S(!new)>(o: Oracle<S>, universe: set<Key>, scope: S, arrival: Option<ComponentInstanceKey>, path: seq<Key>, own: set<Take<S>>)
    requires ValidOracle(o, universe) && ArrivedBy(o, scope, arrival, own)
    ensures var t, tour := TraceNode(o, universe, scope, arrival, path), TourNode(o, universe, scope, path);
      && (t.end != Failed ==> AllTakesRecorded(o, TakesOf(o, tour.visits), t.events) && t.scope == tour.scope)
      && (t.end != Failed ==> AllTaken(o, own + TakesOf(o, tour.visits), t.events))
      && (t.end != Failed ==> o.enter(scope).Some? && (arrival.Some? ==> Connected(arrival.value, o.enter(scope).value.cik) in t.events))
    decreases Left(universe, path), 0, 0
  {
    if o.enter(scope).Some? && o.enter(scope).value.cik.GetKey() !in path {
      var service := o.enter(scope).value;
      FewerLeft(universe, path, service.cik.GetKey());
      ServiceEvaluated(o, universe, scope, arrival, path + [service.cik.GetKey()], own);
    }
  }

  lemma {:induction false} ServiceEvaluated<S(!new)>(o: Oracle<S>, universe: set<Key>, scope: S, arrival: Option<ComponentInstanceKey>, path: seq<Key>, own: set<Take<S>>)
    requires ValidOracle(o, universe) && ArrivedBy(o, scope, arrival, own) && path != [] && o.enter(scope).Some?
    ensures var service := o.enter(scope).value;
      var t := TraceService(o, universe, service, arrival, path);
      service.components.Some? && t.end != Failed ==>
        && var r := TourComponents(o, universe, service.scope, service.components.value, path);
        && AllTakesRecorded(o, TakesOf(o, r.visits + [Visit(service.cik.GetKey(), r.asked)]), t.events) && t.scope == r.scope
        && AllTaken(o, own + TakesOf(o, r.visits + [Visit(service.cik.GetKey(), r.asked)]), t.events)
        && (arrival.Some? ==> Connected(arrival.value, service.cik) in t.events)
    decreases Left(universe, path), if o.enter(scope).value.components.Some? then |o.enter(scope).value.components.value| + 2 else 0, 0
  {
    var service := o.enter(scope).value;
    if service.components.Some? {
      var k, components := service.cik.GetKey(), service.components.value;
      ComponentsEvaluated(o, universe, service.scope, service.cik, components, path);
      var c, r := TraceComponents(o, universe, service.scope, service.cik, components, path),
                  TourComponents(o, universe, service.scope, components, path);
      TakesBoth(o, r.visits, [Visit(k, r.asked)]);
      if c.end != Failed {
        NodeFits(o, scope, arrival, service.cik, own, RoundTakes(o, k, r), c, Held(service.cik, |path| - 1));
      }
    }
  }

  lemma NodeFits<S(!new)>(o: Oracle<S>, scope: S, arrival: Option<ComponentInstanceKey>, service: ComponentInstanceKey, own: set<Take<S>>,
                          takes: set<Take<S>>, c: Trace<S>, last: Event)
    requires o.enter(scope).Some? && service == o.enter(scope).value.cik && ArrivedBy(o, scope, arrival, own) && last.Held?
    requires c.end != Failed && AllTakesRecorded(o, takes, c.events) && AllTaken(o, takes, c.events)
    ensures var t := ServiceTrace(Arrival(arrival, service), c, last);
      && AllTakesRecorded(o, takes, t.events) && AllTaken(o, own + takes, t.events)
      && (arrival.Some? ==> Connected(arrival.value, service) in t.events)
  {
    var entry, t := Arrival(arrival, service), ServiceTrace(Arrival(arrival, service), c, last);
    StillRecorded(o, takes, c.events, t.events);
    StillTaken(o, takes, own + takes, c.events);
    forall e | e in entry ensures EventTaken(o, own + takes, e) {
      if e.Connected? {
        var x :| x in own && IsArrival(o, scope, arrival.value, x);
        assert x in own + takes && Evaluation(o, x, e);
      }
    }
    TakenBoth(o, own + takes, entry, c.events);
    forall e | e in [last] ensures EventTaken(o, own + takes, e) {
    }
    TakenBoth(o, own + takes, entry + c.events, [last]);
    if arrival.Some? {
      assert entry[1] in entry;
    }
  }

  lemma {:induction false} ComponentsEvaluated<S(!new)>(o: Oracle<S>, universe: set<Key>, scope: S, service: ComponentInstanceKey,
                                                        components: seq<string>, path: seq<Key>)
    requires ValidOracle(o, universe) && path != [] && service.IsService()
    requires forall name :: name in components ==> Plain(name) && name != ROOT
    ensures var t, r := TraceComponents(o, universe, scope, service, components, path), TourComponents(o, universe, scope, components, path);
      Fits(o, RoundTakes(o, service.GetKey(), r), t, r.scope)
    decreases Left(universe, path), |components| + 1, 0
  {
    var k := service.GetKey();
    NoTakes<S>(o, k);
    if components != [] {
      var name, rest := components[0], components[1..];
      assert name in components && forall n :: n in rest ==> n in components;
      match o.matches(scope, name)
      case CriteriaError =>
        AskedMore(o, k, (scope, name), []);
        assert [(scope, name)] + [] == [(scope, name)];
      case NotMatched =>
        ComponentsEvaluated(o, universe, scope, service, rest, path);
        var r := TourComponents(o, universe, scope, rest, path);
        AskedMore(o, k, (scope, name), r.asked);
        assert RoundTakes(o, k, r.(asked := [(scope, name)] + r.asked)) == RoundTakes(o, k, r);
      case Matched =>
        assert components == [name] + rest;
        MatchedEvaluated(o, universe, scope, service, name, rest, path);
    }
  }

  lemma {:induction false} MatchedEvaluated<S(!new)>(o: Oracle<S>, universe: set<Key>, scope: S, service: ComponentInstanceKey,
                                                     name: string, rest: seq<string>, path: seq<Key>)
    requires ValidOracle(o, universe) && path != [] && service.IsService() && o.matches(scope, name) == Matched
    requires Plain(name) && name != ROOT && forall n :: n in rest ==> Plain(n) && n != ROOT
    ensures var t, r := TraceComponents(o, universe, scope, service, [name] + rest, path), TourComponents(o, universe, scope, [name] + rest, path);
      Fits(o, RoundTakes(o, service.GetKey(), r), t, r.scope)
    decreases Left(universe, path), |rest| + 1, 1
  {
    var k, cik, own := service.GetKey(), ComponentKeyOf(service, name), Take(service.GetKey(), scope, name);
    assert ([name] + rest)[1..] == rest;
    ParentOfComponent(service, name);
    ComponentEvaluated(o, universe, scope, name, cik, path, own);
    var t, tour := TraceComponent(o, universe, scope, name, cik, path), TourComponent(o, universe, scope, name, path);
    if t.end == Completed {
      ComponentsEvaluated(o, universe, tour.scope, service, rest, path);
      var c, r := TraceComponents(o, universe, t.scope, service, rest, path), TourComponents(o, universe, tour.scope, rest, path);
      AskedMore(o, k, (scope, name), r.asked);
      TakesBoth(o, tour.visits, r.visits);
      assert RoundTakes(o, k, Round([(scope, name)] + r.asked, tour.visits + r.visits, r.scope))
          == TakesOf(o, tour.visits) + RoundTakes(o, k, r) + {own};
      if c.end != Failed {
        RoundFits(o, service, own, t.events, TakesOf(o, tour.visits), c.events, RoundTakes(o, k, r), Held(cik, |path| - 1));
      }
    }
  }

  lemma RoundFits<S(!new)>(o: Oracle<S>, service: ComponentInstanceKey, own: Take<S>, a: seq<Event>, takesA: set<Take<S>>,
                           b: seq<Event>, takesB: set<Take<S>>, last: Event)
    requires service.IsService() && own.service == service.GetKey() && last.Held?
    requires var cik := ComponentKeyOf(service, own.name); IsOf(cik, own) && OwnRecorded(o, own, cik, a)
    requires AllTakesRecorded(o, takesA, a) && AllTaken(o, {own} + takesA, a)
    requires AllTakesRecorded(o, takesB, b) && AllTaken(o, takesB, b)
    ensures var cik := ComponentKeyOf(service, own.name);
      var events, takes := [Connected(service, cik), Entered(cik)] + a + [last] + b, takesA + takesB + {own};
      AllTakesRecorded(o, takes, events) && AllTaken(o, takes, events)
  {
    var cik, takes := ComponentKeyOf(service, own.name), takesA + takesB + {own};
    var entry := [Connected(service, cik), Entered(cik)];
    var events := entry + a + [last] + b;
    StillRecorded(o, takesA, a, events);
    StillRecorded(o, takesB, b, events);
    assert Connected(service, cik) in events;
    assert RecordedUnder(o, own, service, events);
    forall t | t in takes ensures TakeRecorded(o, t, events) {
    }
    forall e | e in entry ensures EventTaken(o, takes, e) {
      assert e.Connected? ==> own in takes && Evaluation(o, own, e);
    }
    forall e | e in [last] ensures EventTaken(o, takes, e) {
    }
    StillTaken(o, {own} + takesA, takes, a);
    StillTaken(o, takesB, takes, b);
    TakenBoth(o, takes, entry, a);
    TakenBoth(o, takes, entry + a, [last]);
    TakenBoth(o, takes, entry + a + [last], b);
  }

  lemma {:induction false} ComponentEvaluated<S(!new)>(o: Oracle<S>, universe: set<Key>, scope: S, name: string, cik: ComponentInstanceKey,
                                                       path: seq<Key>, own: Take<S>)
    requires ValidOracle(o, universe) && path != [] && own.scope == scope && own.name == name && IsOf(cik, own)
    ensures var t, tour := TraceComponent(o, universe, scope, name, cik, path), TourComponent(o, universe, scope, name, path);
      t.end != Failed ==>
        && AllTakesRecorded(o, TakesOf(o, tour.visits), t.events) && AllTaken(o, {own} + TakesOf(o, tour.visits), t.events)
        && OwnRecorded(o, own, cik, t.events) && t.scope == tour.scope
    decreases Left(universe, path), 0, 2
  {
    if o.discover(scope, name).Some? {
      var (params, scope1) := o.discover(scope, name).value;
      KindEvaluated(o, universe, scope1, name, cik, path, own);
      var c, tour := TraceKind(o, universe, scope1, name, cik, path), TourKind(o, universe, scope1, name, path);
      if c.end != Failed {
        var takes, events := {own} + TakesOf(o, tour.visits), [Discovered(cik, params)] + c.events;
        StillRecorded(o, TakesOf(o, tour.visits), c.events, events);
        forall e | e in [Discovered(cik, params)] ensures EventTaken(o, takes, e) {
          assert own in takes && Evaluation(o, own, e);
        }
        TakenBoth(o, takes, [Discovered(cik, params)], c.events);
      }
    }
  }

  lemma {:induction false} KindEvaluated<S(!new)>(o: Oracle<S>, universe: set<Key>, scope: S, name: string, cik: ComponentInstanceKey,
                                                  path: seq<Key>, own: Take<S>)
    requires ValidOracle(o, universe) && path != [] && own.name == name && IsOf(cik, own)
    requires o.discover(own.scope, name).Some? && scope == o.discover(own.scope, name).value.1
    ensures var t, tour := TraceKind(o, universe, scope, name, cik, path), TourKind(o, universe, scope, name, path);
      t.end != Failed ==>
        && AllTakesRecorded(o, TakesOf(o, tour.visits), t.events) && AllTaken(o, {own} + TakesOf(o, tour.visits), t.events)
        && KindRecorded(o, o.kind(scope, name), cik, t.events) && t.scope == tour.scope
    decreases Left(universe, path), 0, 1
  {
    NoTakes<S>(o, "");
    assert {own} + TakesOf<S>(o, []) == {own};
    match o.kind(scope, name)
    case Code(None) =>
    case Code(Some(params)) =>
      forall e | e in [Coded(cik, params)] ensures EventTaken(o, {own}, e) {
        assert Evaluation(o, own, e);
      }
    case Contract(child) =>
      assert own in {own} && IsArrival(o, child, cik, own);
      NodeEvaluated(o, universe, child, Some(cik), path, {own});
    case Neither =>
  }

  // ---- The scopes in which components are looked at belong to their service.

  ghost predicate AtHome<S(!new)>(o: Oracle<S>, takes: set<Take<S>>) {
    forall t :: t in takes ==> o.at(t.scope) == t.service
  }

  lemma {:induction false} NodeAtHome<S(!new)>(o: Oracle<S>, universe: set<Key>, scope: S, path: seq<Key>)
    requires ValidOracle(o, universe)
    ensures AtHome(o, TakesOf(o, TourNode(o, universe, scope, path).visits))
    decreases Left(universe, path), 0, 0
  {
    NoTakes<S>(o, "");
    if o.enter(scope).Some? && o.enter(scope).value.cik.GetKey() !in path && o.enter(scope).value.components.Some? {
      var service := o.enter(scope).value;
      FewerLeft(universe, path, service.cik.GetKey());
      RoundAtHome(o, universe, service.scope, service.cik.GetKey(), service.components.value, path + [service.cik.GetKey()]);
      var r := TourComponents(o, universe, service.scope, service.components.value, path + [service.cik.GetKey()]);
      TakesBoth(o, r.visits, [Visit(service.cik.GetKey(), r.asked)]);
    }
  }

  lemma {:induction false} RoundAtHome<S(!new)>(o: Oracle<S>, universe: set<Key>, scope: S, service: Key, components: seq<string>, path: seq<Key>)
    requires ValidOracle(o, universe) && o.at(scope) == service
    ensures AtHome(o, RoundTakes(o, service, TourComponents(o, universe, scope, components, path)))
    decreases Left(universe, path), |components| + 1, 0
  {
    NoTakes<S>(o, service);
    if components != [] {
      var name, rest := components[0], components[1..];
      match o.matches(scope, name)
      case CriteriaError =>
        AskedMore(o, service, (scope, name), []);
        assert [(scope, name)] + [] == [(scope, name)];
      case NotMatched =>
        RoundAtHome(o, universe, scope, service, rest, path);
        AskedMore(o, service, (scope, name), TourComponents(o, universe, scope, rest, path).asked);
      case Matched =>
        var t := TourComponent(o, universe, scope, name, path);
        ComponentAtHome(o, universe, scope, name, path);
        RoundAtHome(o, universe, t.scope, service, rest, path);
        var r := TourComponents(o, universe, t.scope, rest, path);
        AskedMore(o, service, (scope, name), r.asked);
        TakesBoth(o, t.visits, r.visits);
    }
  }

  lemma {:induction false} ComponentAtHome<S(!new)>(o: Oracle<S>, universe: set<Key>, scope: S, name: string, path: seq<Key>)
    requires ValidOracle(o, universe)
    ensures var t := TourComponent(o, universe, scope, name, path); AtHome(o, TakesOf(o, t.visits)) && o.at(t.scope) == o.at(scope)
    decreases Left(universe, path), 0, 2
  {
    NoTakes<S>(o, "");
    if o.discover(scope, name).Some? {
      var scope1 := o.discover(scope, name).value.1;
      if o.kind(scope1, name).Contract? {
        NodeAtHome(o, universe, o.kind(scope1, name).child, path);
      }
    }
  }

  // ---- What is stored.

  lemma {:induction false} AboutMember(events: seq<Event>, k: Key, e: Event)
    ensures e in About(events, k) <==> e in events && e.cik.GetKey() == k
  {
    if events != [] {
      var front, last := events[..|events| - 1], events[|events| - 1];
      assert events == front + [last];
      AboutMember(front, k, e);
    }
  }

  lemma {:induction false} DiscoveriesMember(es: seq<Event>, p: Params)
    ensures p in Discoveries(es) <==> exists e :: e in es && e.Discovered? && e.params == p
  {
    if es != [] {
      var front, last := es[..|es| - 1], es[|es| - 1];
      assert es == front + [last];
      DiscoveriesMember(front, p);
    }
  }

  lemma {:induction false} CodesMember(es: seq<Event>, p: Params)
    ensures p in Codes(es) <==> exists e :: e in es && e.Coded? && e.params == p
  {
    if es != [] {
      var front, last := es[..|es| - 1], es[|es| - 1];
      assert es == front + [last];
      CodesMember(front, p);
    }
  }

  /** Evaluations of one template are empty alike. */
  lemma SameTemplate(template: Params, p: Params, q: Params)
    requires Evaluates(template, p) && Evaluates(template, q) && (p.Empty() || q.Empty())
    ensures p == q
  {
  }

  /** When the parameters evaluated for an instance are empty alike, the stored ones are all of them. */
  lemma StoredIsEach(ps: seq<Params>, stored: Params, p: Params)
    requires Stores(ps, stored) && p in ps && forall q :: q in ps && (q.Empty() || p.Empty()) ==> q == p
    ensures stored == p
  {
    if p.Empty() {
      assert ps[|ps| - 1] in ps;
    }
  }

  lemma DiscoveriesAlike<S(!new)>(o: Oracle<S>, universe: set<Key>, takes: set<Take<S>>, events: seq<Event>, cik: ComponentInstanceKey, p: Params, q: Params)
    requires ValidOracle(o, universe) && AllTaken(o, takes, events) && AtHome(o, takes) && Discovered(cik, p) in events
    requires q in Discoveries(About(events, cik.GetKey())) && (q.Empty() || p.Empty())
    ensures p == q
  {
    DiscoveriesMember(About(events, cik.GetKey()), q);
    var e :| e in About(events, cik.GetKey()) && e.Discovered? && e.params == q;
    AboutMember(events, cik.GetKey(), e);
    assert EventTaken(o, takes, e) && EventTaken(o, takes, Discovered(cik, p));
    var t :| t in takes && Evaluation(o, t, Discovered(cik, p));
    var t' :| t' in takes && Evaluation(o, t', e);
    ParentDetermined(cik, e.cik);
    SameTemplate(o.template(t.service, t.name).discovery, p, q);
  }

  lemma CodesAlike<S(!new)>(o: Oracle<S>, universe: set<Key>, takes: set<Take<S>>, events: seq<Event>, cik: ComponentInstanceKey, p: Params, q: Params)
    requires ValidOracle(o, universe) && AllTaken(o, takes, events) && AtHome(o, takes) && Coded(cik, p) in events
    requires q in Codes(About(events, cik.GetKey())) && (q.Empty() || p.Empty())
    ensures p == q
  {
    CodesMember(About(events, cik.GetKey()), q);
    var e :| e in About(events, cik.GetKey()) && e.Coded? && e.params == q;
    AboutMember(events, cik.GetKey(), e);
    assert EventTaken(o, takes, e) && EventTaken(o, takes, Coded(cik, p));
    var t :| t in takes && Evaluation(o, t, Coded(cik, p));
    var t' :| t' in takes && Evaluation(o, t', e);
    ParentDetermined(cik, e.cik);
    assert KindFits(KindOf(o, t), o.template(t.service, t.name)) && KindFits(KindOf(o, t'), o.template(t.service, t.name));
    SameTemplate(o.template(t.service, t.name).code.value, p, q);
  }

  /** All that the traces of walks have in common. */
  lemma TraceEvaluated<S(!new)>(o: Oracle<S>, universe: set<Key>, scope: S)
    requires ValidOracle(o, universe) && TraceOf(o, universe, scope).end == Completed
    ensures var takes, events := TakesOf(o, Visits(o, universe, scope)), TraceOf(o, universe, scope).events;
      AllTakesRecorded(o, takes, events) && AllTaken(o, takes, events) && AtHome(o, takes)
  {
    var takes: set<Take<S>> := {};
    NodeEvaluated(o, universe, scope, None, [], takes);
    NodeAtHome(o, universe, scope, []);
    assert takes + TakesOf(o, Visits(o, universe, scope)) == TakesOf(o, Visits(o, universe, scope));
  }

  /** An instance is stored as it is evaluated in the given take. */
  ghost predicate StoredAs<S(!new)>(o: Oracle<S>, t: Take<S>, x: Instance) {
    && o.discover(t.scope, t.name).Some? && x.discovery == o.discover(t.scope, t.name).value.0
    && match KindOf(o, t)
       case Code(params) => params.Some? && x.isCode && x.codeParams == params.value
       case Contract(child) => !x.isCode && o.enter(child).Some? && o.enter(child).value.cik.GetKey() in x.edgesOut
       case Neither => !x.isCode
  }

  /**
   Each time a component matches in a visit to its service, what is evaluated then, in the scope of that moment,
   is exactly what the resolution has: the discovery parameters, the code parameters or the edge to the
   service that implements the contract, and the edge from the service.
   */
  lemma EvaluatedIsStored<S(!new)>(o: Oracle<S>, universe: set<Key>, d: Key, scope: S, t: Take<S>) returns (k: Key)
    requires ValidOracle(o, universe) && ResolveDependency(o, universe, d, scope).end == Completed && t in TakesOf(o, Visits(o, universe, scope))
    ensures var m := ResolveDependency(o, universe, d, scope).m;
      && k in m && IsOf(m[k].cik, t) && StoredAs(o, t, m[k])
      && t.service in m && k in m[t.service].edgesOut
  {
    var m, events := ResolveDependency(o, universe, d, scope).m, TraceOf(o, universe, scope).events;
    WalkedAsTraced(o, universe, d, scope);
    TraceEvaluated(o, universe, scope);
    assert TakeRecorded(o, t, events);
    var service: ComponentInstanceKey :| RecordedUnder(o, t, service, events);
    var cik := ComponentKeyOf(service, t.name);
    k := cik.GetKey();
    AboutMember(events, k, Discovered(cik, o.discover(t.scope, t.name).value.0));
    ResolvedAsTraced(o, universe, d, scope, k);
    ResolvedIsSettled(o, universe, d, scope, k);
    ResolvedAsTraced(o, universe, d, scope, t.service);
    AboutMember(events, t.service, Connected(service, cik));
    StoredAsEvaluated(o, universe, TakesOf(o, Visits(o, universe, scope)), events, t, cik, d, m[k]);
  }

  lemma StoredAsEvaluated<S(!new)>(o: Oracle<S>, universe: set<Key>, takes: set<Take<S>>, events: seq<Event>, t: Take<S>,
                                   cik: ComponentInstanceKey, d: Key, x: Instance)
    requires ValidOracle(o, universe) && AllTaken(o, takes, events) && AtHome(o, takes) && t in takes
    requires IsOf(cik, t) && OwnRecorded(o, t, cik, events) && Describes(About(events, cik.GetKey()), d, x) && Plain(x.cik.componentName)
    ensures IsOf(x.cik, t) && StoredAs(o, t, x)
  {
    var k, p := cik.GetKey(), o.discover(t.scope, t.name).value.0;
    var es := About(events, k);
    AboutMember(events, k, Discovered(cik, p));
    DiscoveriesMember(es, p);
    forall q | q in Discoveries(es) && (q.Empty() || p.Empty()) ensures q == p {
      DiscoveriesAlike(o, universe, takes, events, cik, p, q);
    }
    StoredIsEach(Discoveries(es), x.discovery, p);
    SameCik(o, takes, events, t, cik, es[0]);
    KindStored(o, universe, takes, events, t, cik, d, x);
  }

  /** Events about one key are about one component. */
  lemma SameCik<S(!new)>(o: Oracle<S>, takes: set<Take<S>>, events: seq<Event>, t: Take<S>, cik: ComponentInstanceKey, e: Event)
    requires IsOf(cik, t) && e in About(events, cik.GetKey()) && Plain(e.cik.componentName)
    ensures e in events && IsOf(e.cik, t)
  {
    AboutMember(events, cik.GetKey(), e);
    ParentDetermined(cik, e.cik);
  }

  lemma KindStored<S(!new)>(o: Oracle<S>, universe: set<Key>, takes: set<Take<S>>, events: seq<Event>, t: Take<S>,
                            cik: ComponentInstanceKey, d: Key, x: Instance)
    requires ValidOracle(o, universe) && AllTaken(o, takes, events) && AtHome(o, takes) && t in takes
    requires IsOf(cik, t) && OwnRecorded(o, t, cik, events) && Describes(About(events, cik.GetKey()), d, x)
    ensures match KindOf(o, t)
      case Code(params) => params.Some? && x.isCode && x.codeParams == params.value
      case Contract(child) => !x.isCode && o.enter(child).Some? && o.enter(child).value.cik.GetKey() in x.edgesOut
      case Neither => !x.isCode
  {
    var es := About(events, cik.GetKey());
    match KindOf(o, t)
    case Code(params) =>
      AboutMember(events, cik.GetKey(), Coded(cik, params.value));
      CodesMember(es, params.value);
      forall q | q in Codes(es) && (q.Empty() || params.value.Empty()) ensures q == params.value {
        CodesAlike(o, universe, takes, events, cik, params.value, q);
      }
      StoredIsEach(Codes(es), x.codeParams, params.value);
    case Contract(child) =>
      NoCodes(o, universe, takes, events, t, cik);
      AboutMember(events, cik.GetKey(), Connected(cik, o.enter(child).value.cik));
    case Neither =>
      NoCodes(o, universe, takes, events, t, cik);
  }

  /** A component that is not code in one visit is not code in any. */
  lemma NoCodes<S(!new)>(o: Oracle<S>, universe: set<Key>, takes: set<Take<S>>, events: seq<Event>, t: Take<S>, cik: ComponentInstanceKey)
    requires ValidOracle(o, universe) && AllTaken(o, takes, events) && AtHome(o, takes) && t in takes
    requires IsOf(cik, t) && o.discover(t.scope, t.name).Some? && !KindOf(o, t).Code?
    ensures Codes(About(events, cik.GetKey())) == []
  {
    var es := About(events, cik.GetKey());
    if Codes(es) != [] {
      var p := Codes(es)[0];
      CodesMember(es, p);
      var e :| e in es && e.Coded? && e.params == p;
      AboutMember(events, cik.GetKey(), e);
      assert EventTaken(o, takes, e);
      var t' :| t' in takes && Evaluation(o, t', e);
      ParentDetermined(cik, e.cik);
      KindsAlike(o, universe, takes, t, t');
    }
  }

  lemma KindsAlike<S(!new)>(o: Oracle<S>, universe: set<Key>, takes: set<Take<S>>, t: Take<S>, t': Take<S>)
    requires ValidOracle(o, universe) && AtHome(o, takes) && t in takes && t' in takes && t.service == t'.service && t.name == t'.name
    requires o.discover(t.scope, t.name).Some? && o.discover(t'.scope, t'.name).Some?
    ensures KindOf(o, t).Code? <==> KindOf(o, t').Code?
  {
    assert KindFits(KindOf(o, t), o.template(t.service, t.name)) && KindFits(KindOf(o, t'), o.template(t.service, t.name));
  }

  /** The parameters stored for an instance are the ones evaluated for it, each time. */
  lemma StoredParams<S(!new)>(o: Oracle<S>, universe: set<Key>, d: Key, scope: S, k: Key)
    requires ValidOracle(o, universe) && ResolveDependency(o, universe, d, scope).end == Completed
    requires k in ResolveDependency(o, universe, d, scope).m
    ensures var x, es := ResolveDependency(o, universe, d, scope).m[k], About(TraceOf(o, universe, scope).events, k);
      && (forall p :: p in Discoveries(es) ==> x.discovery == p)
      && (forall p :: p in Codes(es) ==> x.codeParams == p)
  {
    var x, events := ResolveDependency(o, universe, d, scope).m[k], TraceOf(o, universe, scope).events;
    var es, takes := About(events, k), TakesOf(o, Visits(o, universe, scope));
    WalkedAsTraced(o, universe, d, scope);
    TraceEvaluated(o, universe, scope);
    ResolvedAsTraced(o, universe, d, scope, k);
    forall p | p in Discoveries(es) ensures x.discovery == p {
      DiscoveriesMember(es, p);
      var e :| e in es && e.Discovered? && e.params == p;
      AboutMember(events, k, e);
      forall q | q in Discoveries(es) && (q.Empty() || p.Empty()) ensures q == p {
        DiscoveriesAlike(o, universe, takes, events, e.cik, p, q);
      }
      StoredIsEach(Discoveries(es), x.discovery, p);
    }
    forall p | p in Codes(es) ensures x.codeParams == p {
      CodesMember(es, p);
      var e :| e in es && e.Coded? && e.params == p;
      AboutMember(events, k, e);
      forall q | q in Codes(es) && (q.Empty() || p.Empty()) ensures q == p {
        CodesAlike(o, universe, takes, events, e.cik, p, q);
      }
      StoredIsEach(Codes(es), x.codeParams, p);
    }
  }

  /** The two takes are of the same component, and something is evaluated differently in them. */
  ghost predicate Differ<S(!new)>(o: Oracle<S>, t: Take<S>, t': Take<S>) {
    && t.service == t'.service && t.name == t'.name
    && o.discover(t.scope, t.name).Some? && o.discover(t'.scope, t'.name).Some?
    && (|| o.discover(t.scope, t.name).value.0 != o.discover(t'.scope, t'.name).value.0
        || (KindOf(o, t).Code? && KindOf(o, t').Code? && KindOf(o, t).params != KindOf(o, t').params))
  }

  /** A walk that evaluates parameters of a component in two ways fails. */
  lemma DifferentEvaluationsFail<S(!new)>(o: Oracle<S>, universe: set<Key>, d: Key, scope: S, t: Take<S>, t': Take<S>)
    requires ValidOracle(o, universe) && Differ(o, t, t')
    requires t in TakesOf(o, Visits(o, universe, scope)) && t' in TakesOf(o, Visits(o, universe, scope))
    ensures ResolveDependency(o, universe, d, scope).end == Failed
  {
    var w := ResolveDependency(o, universe, d, scope);
    if w.end == Completed {
      var k := EvaluatedIsStored(o, universe, d, scope, t);
      var k' := EvaluatedIsStored(o, universe, d, scope, t');
      ResolvedIsSettled(o, universe, d, scope, k);
      ResolvedIsSettled(o, universe, d, scope, k');
      SiblingsSame(w.m[k].cik, w.m[k'].cik);
    }
  }

  /** Components of one name with the same parent have the same key. */
  lemma SiblingsSame(cik: ComponentInstanceKey, cik': ComponentInstanceKey)
    requires cik.componentName == cik'.componentName && cik.GetParentServiceKey().GetKey() == cik'.GetParentServiceKey().GetKey()
    requires !cik.IsService() && !cik'.IsService()
    ensures cik.GetKey() == cik'.GetKey()
  {
    KeySplits(cik);
    KeySplits(cik');
    KeySplits(cik.GetParentServiceKey());
    KeySplits(cik'.GetParentServiceKey());
    LastPart(KeyPrefix(cik.GetParentServiceKey()), ROOT, KeyPrefix(cik'.GetParentServiceKey()), ROOT);
    assert KeyPrefix(cik.GetParentServiceKey()) == KeyPrefix(cik) && KeyPrefix(cik'.GetParentServiceKey()) == KeyPrefix(cik');
  }

  /**
   And nothing else is there: each component of a resolution has matched in some visit to its service, and
   each edge leads from a service to such a component, or from a component to the service that its contract,
   as evaluated in some visit, is implemented by.
   */
  lemma StoredIsTaken<S(!new)>(o: Oracle<S>, universe: set<Key>, d: Key, scope: S, k: Key)
    requires ValidOracle(o, universe) && ResolveDependency(o, universe, d, scope).end == Completed
    requires k in ResolveDependency(o, universe, d, scope).m
    ensures var m, takes := ResolveDependency(o, universe, d, scope).m, TakesOf(o, Visits(o, universe, scope));
      && (!m[k].cik.IsService() ==> exists t :: t in takes && IsOf(m[k].cik, t))
      && forall to :: to in m[k].edgesOut ==> exists t :: t in takes && EdgeOf(o, t, m[k].cik, k, to)
  {
    var m, events, takes := ResolveDependency(o, universe, d, scope).m, TraceOf(o, universe, scope).events, TakesOf(o, Visits(o, universe, scope));
    WalkedAsTraced(o, universe, d, scope);
    TraceEvaluated(o, universe, scope);
    ResolvedAsTraced(o, universe, d, scope, k);
    ResolvedIsSettled(o, universe, d, scope, k);
    forall to | to in m[k].edgesOut ensures exists t :: t in takes && EdgeOf(o, t, m[k].cik, k, to) {
      var e :| e in About(events, k) && e.Connected? && e.dst.GetKey() == to;
      AboutMember(events, k, e);
      assert EventTaken(o, takes, e);
      var t :| t in takes && Evaluation(o, t, e);
      EdgeTaken(o, t, e, m[k].cik);
    }
    if !m[k].cik.IsService() {
      ComponentTaken(o, universe, d, scope, k);
    }
  }

  /** The edge that a take asks for: to the component itself, or from it to the service of its contract. */
  ghost predicate EdgeOf<S(!new)>(o: Oracle<S>, t: Take<S>, cik: ComponentInstanceKey, k: Key, to: Key) {
    if cik.IsService() then k == t.service && exists c: ComponentInstanceKey :: IsOf(c, t) && c.GetKey() == to
    else IsOf(cik, t) && o.discover(t.scope, t.name).Some? && KindOf(o, t).Contract? && RootKey(o, KindOf(o, t).child) == to
  }

  lemma EdgeTaken<S(!new)>(o: Oracle<S>, t: Take<S>, e: Event, cik: ComponentInstanceKey)
    requires Evaluation(o, t, e) && e.Connected? && e.cik.GetKey() == cik.GetKey() && Plain(cik.componentName)
    ensures EdgeOf(o, t, cik, cik.GetKey(), e.dst.GetKey())
  {
    PlainRoot();
    ParentDetermined(e.cik, cik);
  }

  lemma PlainRoot()
    ensures Plain(ROOT)
  {
  }

  /** A component that is held has been discovered. */
  lemma ComponentTaken<S(!new)>(o: Oracle<S>, universe: set<Key>, d: Key, scope: S, k: Key)
    requires ValidOracle(o, universe) && ResolveDependency(o, universe, d, scope).end == Completed
    requires k in ResolveDependency(o, universe, d, scope).m && !ResolveDependency(o, universe, d, scope).m[k].cik.IsService()
    ensures exists t :: t in TakesOf(o, Visits(o, universe, scope)) && IsOf(ResolveDependency(o, universe, d, scope).m[k].cik, t)
  {
    var m, takes := ResolveDependency(o, universe, d, scope).m, TakesOf(o, Visits(o, universe, scope));
    ResolvedIsGood(o, universe, d, scope);
    assert EntryFits(m, d, RootKey(o, scope), k);
    var s := ParentKey(m[k]);
    assert s in m && k in m[s].edgesOut;
    WalkedAsTraced(o, universe, d, scope);
    TraceEvaluated(o, universe, scope);
    ResolvedAsTraced(o, universe, d, scope, s);
    var events := TraceOf(o, universe, scope).events;
    var e :| e in About(events, s) && e.Connected? && e.dst.GetKey() == k;
    AboutMember(events, s, e);
    assert EventTaken(o, takes, e);
    var t :| t in takes && Evaluation(o, t, e);
    ComponentOfEdge(o, t, e, m[k].cik);
  }

  lemma ComponentOfEdge<S(!new)>(o: Oracle<S>, t: Take<S>, e: Event, cik: ComponentInstanceKey)
    requires Evaluation(o, t, e) && e.Connected? && e.dst.GetKey() == cik.GetKey() && e.cik.GetKey() == cik.GetParentServiceKey().GetKey()
    requires Plain(cik.componentName) && !cik.IsService()
    ensures IsOf(cik, t)
  {
    PlainRoot();
    ParentDetermined(e.cik, cik.GetParentServiceKey());
    ParentDetermined(e.dst, cik);
  }
}

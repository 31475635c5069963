/**
 With the failure marks as coded, the enforcer may start over forever although no update to nil parameters
 is pending: the update of a service succeeds each time, that of its component fails each time.
 */
module LateMarkRetry {
  import opened Prelude
  import opened ComponentKey
  import opened Instances
  import opened ComponentActions
  import opened Scheduler
  import opened SchedulerSafety
  import opened SchedulerLiveness
  import opened SchedulerDeterminism
  import opened SchedulerFineGrain
  import opened SchedulerLateMark
  import opened SchedulerAgreement
  import opened DiffSpec
  import opened Convergence
  import opened PassOutcome
  import opened Retry
  import NodeWalk

  /** A service and one component of it, used by one dependency. */
  datatype Setting = Setting(service: ComponentInstanceKey, name: string, d: Key, present: Params, wanted: Params) {
    predicate Valid() {
      && service.IsService() && Plain(name) && name != ROOT
      && !wanted.NilParams? && !present.DeepEqual(wanted)
    }

    function Component(): ComponentInstanceKey {
      NodeWalk.ComponentKeyOf(service, name)
    }

    function S(): Key {
      service.GetKey()
    }

    function K(): Key {
      Component().GetKey()
    }

    /** The two instances, the component with the given parameters. */
    function With(p: Params): StateMap {
      map[S() := Instance(service, map[d := 0], false, Params(map[]), Params(map[]), {K()}, false, false),
          K() := Instance(Component(), map[d := 0], true, Params(map[]), p, {}, false, false)]
    }

    function Plan(): PlanView {
      PlanView(map[S() := [Update(S())], K() := [Update(K())]], [Edge(S(), K())])
    }

    /** The cloud refuses the update of the component. */
    function Refusing(): ActionId -> Luck {
      (a: ActionId) => if a.node == K() then Luck(false, true) else GOOD
    }

    function Config(): Config<Instance> {
      CloudConfig(Plan(), With(wanted), Refusing(), false)
    }

    lemma Parent()
      requires Valid()
      ensures Component().GetParentServiceKey().GetKey() == S() && service.GetParentServiceKey().GetKey() == S() && S() != K()
    {
      NodeWalk.ParentOfComponent(service, name);
    }

    lemma ComponentOutdated(k: Key)
      requires Valid()
      ensures Outdated(Lookup(With(present), k), Lookup(With(wanted), k)) <==> k == K()
      ensures Consumers(Lookup(With(present), k)) == Consumers(Lookup(With(wanted), k))
      ensures !NeverUpdated(Lookup(With(present), k), Lookup(With(wanted), k))
    {
      Parent();
      assert d in With(present)[K()].dependencyKeys.Keys && d in With(wanted)[K()].dependencyKeys.Keys;
    }

    lemma OnlyUpdates(k: Key, a: Action)
      requires Valid()
      ensures RequiredAction(With(present), With(wanted), k, a) <==> a == Update(k) && (k == S() || k == K())
    {
      Parent();
      forall x ensures Outdated(Lookup(With(present), x), Lookup(With(wanted), x)) <==> x == K() {
        ComponentOutdated(x);
      }
      ComponentOutdated(k);
      assert With(wanted)[K()].cik == Component();
      assert Touched(With(present), With(wanted), k) <==> k == S();
    }

    lemma Assumptions()
      requires Valid()
      ensures ServicesWaitForComponents(With(wanted)) && NoNilUpdates(With(present), With(wanted))
    {
      Parent();
      forall k ensures !NeverUpdated(Lookup(With(present), k), Lookup(With(wanted), k)) {
        ComponentOutdated(k);
      }
      var m := With(wanted);
      assert m[S()].cik == service && m[K()].cik == Component() && K() in m[S()].edgesOut;
    }

    lemma PlanIsDiff()
      requires Valid()
      ensures IsDiff(With(present), With(wanted), Plan())
    {
      Parent();
      forall k ensures NodeOf(With(present), With(wanted), k, ActionsOf(Plan(), k)) {
        forall a ensures a in ActionsOf(Plan(), k) <==> RequiredAction(With(present), With(wanted), k, a) {
          OnlyUpdates(k, a);
        }
      }
      forall e ensures e in Plan().edges <==> DesiredEdge(With(wanted), e) {
      }
    }

    lemma Alones()
      requires Valid()
      ensures Alone(Config(), K(), 1, Lookup(With(present), K())) == (Lookup(With(present), K()), true)
      ensures Alone(Config(), S(), 1, Lookup(With(present), S())) == (Lookup(With(present), S()), false)
    {
      Parent();
      CloudExecAt(Plan(), With(wanted), Refusing(), K(), 0, Lookup(With(present), K()));
      CloudExecAt(Plan(), With(wanted), Refusing(), S(), 0, Lookup(With(present), S()));
      AloneNext(Config(), K(), 0, Lookup(With(present), K()));
      AloneNext(Config(), S(), 0, Lookup(With(present), S()));
    }

    lemma PlanAcyclic()
      requires Valid()
      ensures Config().graph.Valid() && Acyclic(Config().graph) && DistinctEdges(Config().graph)
    {
      Parent();
      var rank := map[K() := 0, S() := 1];
      assert Ranked(Config().graph, rank);
    }

    /** A pass in which the service reads its mark too early: its update succeeds, and nothing has changed. */
    lemma LatePass()
      requires Valid()
      ensures RetriggeringPass(With(wanted), With(present), With(present), false)
    {
      PlanIsDiff();
      PlanAcyclic();
      Parent();
      Alones();
      var c, a := Config(), With(present);
      var s0 := SomeStart(c, a);
      var moves, s, k := MissingRun(c, s0, 0);
      WorldStays(s0, moves, s);
      ServiceSucceeds(s0, moves, s);
      assert PassBy(With(wanted), a, a, Plan(), Refusing(), false, s0, moves, s);
    }

    lemma WorldStays(s0: State<Instance>, moves: seq<Move>, s: State<Instance>)
      requires Valid() && Init(Config(), s0) && s0.world == With(present) && Leads(Config(), s0, moves, s) && s.returned
      ensures s.world == With(present)
    {
      forall x ensures Lookup(s.world, x) == Lookup(With(present), x) {
        EntryStays(s0, moves, s, x);
      }
      SameEntries(With(present), s.world);
    }

    lemma EntryStays(s0: State<Instance>, moves: seq<Move>, s: State<Instance>, x: Key)
      requires Valid() && Init(Config(), s0) && s0.world == With(present) && Leads(Config(), s0, moves, s) && s.returned
      ensures Lookup(s.world, x) == Lookup(With(present), x)
    {
      Parent();
      Alones();
      SkippedOrRan(Config(), s0, moves, s, x);
    }

    lemma ServiceSucceeds(s0: State<Instance>, moves: seq<Move>, s: State<Instance>)
      requires Valid() && Init(Config(), s0) && s0.world == With(present) && Leads(Config(), s0, moves, s) && s.returned
      requires Lookup(s.outcomes, ActionId(S(), 0)) != Some(Skipped)
      ensures s.success > 0
    {
      Parent();
      Alones();
      var c := Config();
      SkippedOrRan(c, s0, moves, s, S());
      InitInv(c, s0);
      LeadsInv(c, s0, moves, s);
      AloneNext(c, S(), 0, Lookup(With(present), S()));
      assert Lookup(s.outcomes, ActionId(S(), 0)) == Some(Succeeded);
      assert ActionId(S(), 0) in ActionsWith(s.outcomes, Succeeded);
    }
  }

  function Repeated(a: StateMap, n: nat): seq<StateMap> {
    if n == 0 then [a] else [a] + Repeated(a, n - 1)
  }

  /**
   So all that InTimeRetriesEnd asks for holds, except that the mark is part of the decrement, and the number
   of passes in a row that start over at once is not bounded.
   */
  lemma LateMarkRetriesForever(t: Setting, n: nat)
    requires t.Valid()
    ensures ServicesWaitForComponents(t.With(t.wanted)) && NoNilUpdates(t.With(t.present), t.With(t.wanted))
    ensures |Repeated(t.With(t.present), n)| == n + 1 && Repeated(t.With(t.present), n)[0] == t.With(t.present)
    ensures RetriggeringRun(t.With(t.wanted), Repeated(t.With(t.present), n), false)
  {
    t.Assumptions();
    t.LatePass();
    Repeating(t.With(t.wanted), t.With(t.present), n);
  }

  lemma {:induction false} Repeating(desired: StateMap, a: StateMap, n: nat)
    requires RetriggeringPass(desired, a, a, false)
    ensures |Repeated(a, n)| == n + 1 && Repeated(a, n)[0] == a && RetriggeringRun(desired, Repeated(a, n), false)
  {
    if n > 0 {
      Repeating(desired, a, n - 1);
      OneMore(desired, a, Repeated(a, n - 1));
    }
  }

  lemma OneMore(desired: StateMap, a: StateMap, states: seq<StateMap>)
    requires RetriggeringPass(desired, a, a, false) && states != [] && states[0] == a && RetriggeringRun(desired, states, false)
    ensures RetriggeringRun(desired, [a] + states, false)
  {
    var all := [a] + states;
    assert all[1..] == states && all[0] == a && all[1] == a;
  }
}

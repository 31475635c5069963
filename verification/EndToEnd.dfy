/** From the policy to the cloud: resolving, comparing and applying put together. */
module EndToEnd {
  import opened Prelude
  import opened ComponentKey
  import opened Instances
  import opened ComponentActions
  import opened Scheduler
  import opened SchedulerLiveness
  import opened DiffSpec
  import opened Convergence
  import opened Merge
  import Resolution
  import NodeWalk
  import opened WalkShapes
  import opened WalkWitnesses
  import opened Resolver
  import opened DesiredState
  import opened DesiredEvaluated
  import WalkEvaluated
  import Retry

  type Oracle<!S> = NodeWalk.Oracle<S>

  /** The desired state, when the dependencies are resolved in the given order. */
  ghost function Desired<S(!new)>(o: Oracle<S>, universe: set<Key>, dependencies: map<Key, S>, order: seq<Key>): StateMap
    requires NodeWalk.ValidOracle(o, universe) && IsOrderOf(order, dependencies.Keys)
  {
    MergeAll(Resolutions(o, universe, dependencies, order))
  }

  /**
   The dependency resolves, its walk uses the instance, and the instance is a component or a service that is
   visited without a criteria error.
   */
  ghost predicate Uses<S(!new)>(o: Oracle<S>, universe: set<Key>, dependencies: map<Key, S>, d: Key, k: Key)
    requires NodeWalk.ValidOracle(o, universe)
  {
    && d in dependencies
    && var w := NodeWalk.ResolveDependency(o, universe, d, dependencies[d]);
    && w.end == NodeWalk.Completed && k in w.m
    && (w.m[k].cik.IsService() ==> NodeWalk.HasCleanVisit(o, NodeWalk.Visits(o, universe, dependencies[d]), k))
  }

  /** The consumers of the desired state are those that use the instance, with or without conflicts. */
  lemma DesiredConsumers<S(!new)>(o: Oracle<S>, universe: set<Key>, dependencies: map<Key, S>, order: seq<Key>, k: Key, d: Key)
    requires NodeWalk.ValidOracle(o, universe) && IsOrderOf(order, dependencies.Keys)
    ensures d in Consumers(Lookup(Desired(o, universe, dependencies, order), k)) <==> Uses(o, universe, dependencies, d, k)
  {
    var rs := Resolutions(o, universe, dependencies, order);
    MergedConsumers(rs, k, d);
    if d in Consumers(Lookup(MergeAll(rs), k)) {
      var r :| r in rs && d in Consumers(Lookup(r, k));
      var d' := ResolutionFrom(o, universe, dependencies, order, r);
      NodeWalk.HeldIff(o, universe, d', dependencies[d'], k, d);
    }
    if Uses(o, universe, dependencies, d, k) {
      var r := NodeWalk.ResolveDependency(o, universe, d, dependencies[d]).m;
      ResolutionTo(o, universe, dependencies, order, d);
      NodeWalk.HeldIff(o, universe, d, dependencies[d], k, d);
      assert d in Consumers(Lookup(r, k));
    }
  }

  /** The actual state has exactly the consumers that the policy asks for. */
  ghost predicate AsPolicySays<S(!new)>(o: Oracle<S>, universe: set<Key>, dependencies: map<Key, S>, actual: StateMap)
    requires NodeWalk.ValidOracle(o, universe)
  {
    forall k, d :: d in Consumers(Lookup(actual, k)) <==> Uses(o, universe, dependencies, d, k)
  }

  lemma AgreementIsAsPolicySays<S(!new)>(o: Oracle<S>, universe: set<Key>, dependencies: map<Key, S>, order: seq<Key>, actual: StateMap)
    requires NodeWalk.ValidOracle(o, universe) && IsOrderOf(order, dependencies.Keys)
    requires forall k :: Consumers(Lookup(actual, k)) == Consumers(Lookup(Desired(o, universe, dependencies, order), k))
    ensures AsPolicySays(o, universe, dependencies, actual)
  {
    forall k, d ensures d in Consumers(Lookup(actual, k)) <==> Uses(o, universe, dependencies, d, k) {
      DesiredConsumers(o, universe, dependencies, order, k, d);
      assert Consumers(Lookup(actual, k)) == Consumers(Lookup(Desired(o, universe, dependencies, order), k));
    }
  }

  /** An instance of the component runs with the given parameters, for the dependency. */
  ghost predicate RunsAt<S(!new)>(desired: StateMap, actual: StateMap, d: Key, t: WalkEvaluated.Take<S>, p: Params, k: Key) {
    && k in desired && WalkEvaluated.IsOf(desired[k].cik, t)
    && k in actual && d in actual[k].dependencyKeys && actual[k].codeParams.DeepEqual(p)
  }

  /** Whenever the policy, for a dependency that resolves, evaluates the code parameters of a component, it runs with these. */
  ghost predicate RunsAsEvaluated<S(!new)>(o: Oracle<S>, universe: set<Key>, dependencies: map<Key, S>, order: seq<Key>, actual: StateMap)
    requires NodeWalk.ValidOracle(o, universe) && IsOrderOf(order, dependencies.Keys)
  {
    forall d, t, p {:trigger Evaluated(o, universe, dependencies, d, t, p)} :: Evaluated(o, universe, dependencies, d, t, p) ==>
      exists k :: RunsAt(Desired(o, universe, dependencies, order), actual, d, t, p, k)
  }

  ghost predicate Evaluated<S(!new)>(o: Oracle<S>, universe: set<Key>, dependencies: map<Key, S>, d: Key, t: WalkEvaluated.Take<S>, p: Params)
    requires NodeWalk.ValidOracle(o, universe)
  {
    && Resolves(o, universe, dependencies, d) && t in WalkEvaluated.TakesOf(o, NodeWalk.Visits(o, universe, dependencies[d]))
    && o.discover(t.scope, t.name).Some? && WalkEvaluated.KindOf(o, t) == NodeWalk.Code(Some(p))
  }

  lemma AgreementRuns<S(!new)>(o: Oracle<S>, universe: set<Key>, dependencies: map<Key, S>, order: seq<Key>, actual: StateMap)
    requires NodeWalk.ValidOracle(o, universe) && IsOrderOf(order, dependencies.Keys)
    requires NoErrors(Desired(o, universe, dependencies, order)) && StatesAgree(actual, Desired(o, universe, dependencies, order))
    ensures RunsAsEvaluated(o, universe, dependencies, order, actual)
  {
    var desired := Desired(o, universe, dependencies, order);
    forall d, t, p | Evaluated(o, universe, dependencies, d, t, p) ensures exists k :: RunsAt(desired, actual, d, t, p, k) {
      var k := PolicyIsDesired(o, universe, dependencies, order, d, t);
      assert EntriesAgree(Lookup(actual, k), Lookup(desired, k));
      SameParams(Lookup(actual, k), Lookup(desired, k), d, p);
      assert RunsAt(desired, actual, d, t, p, k);
    }
  }

  lemma SameParams(v: Option<Instance>, w: Option<Instance>, d: Key, p: Params)
    requires EntriesAgree(v, w) && w.Some? && d in w.value.dependencyKeys && w.value.isCode && w.value.codeParams.DeepEqual(p)
    ensures v.Some? && d in v.value.dependencyKeys && v.value.codeParams.DeepEqual(p)
  {
    assert d in Consumers(v);
  }

  /** The policy resolves without criteria errors that leave a service out, and without conflicts. */
  ghost predicate Consistent<S(!new)>(o: Oracle<S>, universe: set<Key>, dependencies: map<Key, S>, order: seq<Key>)
    requires NodeWalk.ValidOracle(o, universe) && IsOrderOf(order, dependencies.Keys)
  {
    AllVisitsClean(o, universe, dependencies) && NoErrors(Desired(o, universe, dependencies, order))
  }

  /**
   The reconcile loop end to end: resolve all dependencies in any order, compare with an actual state in which
   services with outdated components are in use, and apply under any schedule with a lucky cloud. In the
   resulting actual state an instance has a dependency as consumer if and only if that dependency uses it.
   Unless an update to nil parameters is pending, code runs with the parameters that the policy evaluates for it.
   From an actual state that is well keyed and closed under parents, the resulting one is so again.
   */
  lemma Reconciled<S(!new)>(o: Oracle<S>, universe: set<Key>, dependencies: map<Key, S>, order: seq<Key>, actual: StateMap,
                            plan: PlanView, luck: ActionId -> Luck, atomicMark: bool, s0: State<Instance>, moves: seq<Move>, s: State<Instance>)
    requires NodeWalk.ValidOracle(o, universe) && IsOrderOf(order, dependencies.Keys) && Consistent(o, universe, dependencies, order)
    requires IsDiff(actual, Desired(o, universe, dependencies, order), plan) && AllGood(luck)
    requires AllTouchedInUse(actual, Desired(o, universe, dependencies, order)) || (WellKeyed(actual) && ParentClosed(actual))
    requires var c := CloudConfig(plan, Desired(o, universe, dependencies, order), luck, atomicMark);
      Init(c, s0) && s0.world == actual && Leads(c, s0, moves, s) && s.returned
    ensures AsPolicySays(o, universe, dependencies, s.world)
    ensures Retry.NoNilUpdates(actual, Desired(o, universe, dependencies, order)) ==> RunsAsEvaluated(o, universe, dependencies, order, s.world)
    ensures WellKeyed(actual) ==> WellKeyed(s.world) && ParentClosed(s.world)
  {
    var desired := Desired(o, universe, dependencies, order);
    DesiredStateClosed(o, universe, dependencies, order);
    if WellKeyed(actual) && ParentClosed(actual) {
      ClosedAllInUse(actual, desired);
    }
    ApplyConverges(actual, desired, plan, luck, atomicMark, s0, moves, s);
    AgreementIsAsPolicySays(o, universe, dependencies, order, s.world);
    if Retry.NoNilUpdates(actual, desired) {
      LuckyAgreement(actual, desired, s.world);
      AgreementRuns(o, universe, dependencies, order, s.world);
    }
    if WellKeyed(actual) {
      ApplyKeepsValid(actual, desired, plan, luck, atomicMark, s0, moves, s);
    }
  }

  lemma LuckyAgreement(prev: StateMap, desired: StateMap, actual: StateMap)
    requires forall k :: Consumers(Lookup(actual, k)) == Consumers(Lookup(desired, k))
    requires forall k :: Outdated(Lookup(actual, k), Lookup(desired, k)) <==> NeverUpdated(Lookup(prev, k), Lookup(desired, k))
    requires Retry.NoNilUpdates(prev, desired)
    ensures StatesAgree(actual, desired)
  {
  }

  /**
   When services only call services of a lower level, the plan is acyclic, so that it can be run: some schedule
   returns, no schedule gets stuck before, and none runs forever.
   */
  lemma StratifiedReturns<S(!new)>(o: Oracle<S>, universe: set<Key>, dependencies: map<Key, S>, order: seq<Key>, level: Key -> nat,
                                   actual: StateMap, plan: PlanView, luck: ActionId -> Luck, atomicMark: bool)
    returns (s0: State<Instance>, moves: seq<Move>, s: State<Instance>)
    requires NodeWalk.ValidOracle(o, universe) && IsOrderOf(order, dependencies.Keys) && Stratified(o, level)
    requires IsDiff(actual, Desired(o, universe, dependencies, order), plan)
    ensures Acyclic(GraphOf(plan))
    ensures var c := CloudConfig(plan, Desired(o, universe, dependencies, order), luck, atomicMark);
      && Init(c, s0) && s0.world == actual && Leads(c, s0, moves, s) && s.returned
      && forall moves', t {:trigger Leads(c, s0, moves', t)} :: Leads(c, s0, moves', t) ==>
           |moves'| <= Fuel(c, s0) && (t.returned || exists m :: Enabled(c, t, m))
  {
    var desired := Desired(o, universe, dependencies, order);
    DesiredStateDescends(o, universe, dependencies, order, level);
    DescentRanks(desired, level);
    AcyclicIffEdgesRanked(actual, desired, plan);
    var c := CloudConfig(plan, desired, luck, atomicMark);
    GraphValid(actual, desired, plan);
    s0 := SomeStart(c, actual);
    AcyclicReturns(c, s0);
    moves, s :| Leads(c, s0, moves, s) && s.returned;
  }

  lemma DescentRanks(m: StateMap, level: Key -> nat)
    requires EdgesDescend(level, m)
    ensures exists rank :: RanksEdges(m, rank)
  {
    var rank := map k | k in m :: RankOf(level, m[k], k);
    assert RanksEdges(m, rank);
  }

  lemma GraphValid(actual: StateMap, desired: StateMap, plan: PlanView)
    requires IsDiff(actual, desired, plan)
    ensures GraphOf(plan).Valid()
  {
    forall i | 0 <= i < |plan.edges| ensures plan.edges[i].waiter in plan.actions && plan.edges[i].needed in plan.actions {
      assert plan.edges[i] in plan.edges;
    }
  }

  /**
   The same in any number of passes: however many of them fail, and wherever, once more passes have been
   lucky than there was work at the beginning, the actual state has been as the policy says.
   */
  lemma EventuallyReconciled<S(!new)>(o: Oracle<S>, universe: set<Key>, dependencies: map<Key, S>, order: seq<Key>,
                                      states: seq<StateMap>, ks: set<Key>)
    requires NodeWalk.ValidOracle(o, universe) && IsOrderOf(order, dependencies.Keys) && Consistent(o, universe, dependencies, order)
    requires var desired := Desired(o, universe, dependencies, order);
      && Retry.Passes(desired, states) && Retry.NoNilUpdates(states[0], desired) && states[0].Keys + desired.Keys <= ks
      && Retry.LuckyPasses(desired, states) > Retry.TotalWork(ks, states[0], desired)
    ensures exists x :: x in states && AsPolicySays(o, universe, dependencies, x) && RunsAsEvaluated(o, universe, dependencies, order, x)
  {
    var desired := Desired(o, universe, dependencies, order);
    DesiredStateClosed(o, universe, dependencies, order);
    Retry.LuckyPassesConverge(desired, states, ks);
    var x :| x in states && StatesAgree(x, desired);
    forall k ensures Consumers(Lookup(x, k)) == Consumers(Lookup(desired, k)) {
      assert EntriesAgree(Lookup(x, k), Lookup(desired, k));
    }
    AgreementIsAsPolicySays(o, universe, dependencies, order, x);
    AgreementRuns(o, universe, dependencies, order, x);
  }

  // ---- A policy that cannot be applied.

  /** Without a stratification the plan may have a cycle, and then no schedule of it returns. */
  lemma CyclicPolicyNeverReturns(r: ComponentInstanceKey, a: ComponentInstanceKey, b: ComponentInstanceKey, d: Key,
                                 actual: StateMap, plan: PlanView, luck: ActionId -> Luck, atomicMark: bool,
                                 s0: State<Instance>, moves: seq<Move>, s: State<Instance>)
    requires ThreeServices(r, a, b) && NodeWalk.ValidOracle(CyclicOracle(r, a, b), KeysOf(r, a, b))
    requires IsDiff(actual, Desired(CyclicOracle(r, a, b), KeysOf(r, a, b), map[d := Start], [d]), plan)
    requires var c := CloudConfig(plan, Desired(CyclicOracle(r, a, b), KeysOf(r, a, b), map[d := Start], [d]), luck, atomicMark);
      Init(c, s0) && Leads(c, s0, moves, s)
    ensures Consistent(CyclicOracle(r, a, b), KeysOf(r, a, b), map[d := Start], [d])
    ensures !Acyclic(GraphOf(plan)) && !s.returned
  {
    var o, u := CyclicOracle(r, a, b), KeysOf(r, a, b);
    var m := Desired(o, u, map[d := Start], [d]);
    ResolvedCycle(r, a, b, d);
    OneDependency(o, u, d, Start);
    NodeWalk.ResolvedIsComplete(o, u, d, Start);
    AllClean(o, u, Start);
    CycleUnranked(m, a, b);
    AcyclicIffEdgesRanked(actual, m, plan);
    if s.returned {
      ReturnsOnlyIfAcyclic(CloudConfig(plan, m, luck, atomicMark), s0, moves, s);
    }
  }

  lemma OneDependency<S(!new)>(o: Oracle<S>, universe: set<Key>, d: Key, scope: S)
    requires NodeWalk.ValidOracle(o, universe) && NodeWalk.ResolveDependency(o, universe, d, scope).end == NodeWalk.Completed
    ensures Desired(o, universe, map[d := scope], [d]) == NodeWalk.ResolveDependency(o, universe, d, scope).m
  {
    var m := NodeWalk.ResolveDependency(o, universe, d, scope).m;
    NoDependencies(o, universe, map[d := scope]);
    assert [d][..0] == [];
    assert [] + [m] == [m];
    MergeOne(m);
  }

  lemma NoDependencies<S(!new)>(o: Oracle<S>, universe: set<Key>, dependencies: map<Key, S>)
    requires NodeWalk.ValidOracle(o, universe)
    ensures Resolutions(o, universe, dependencies, []) == []
  {
  }

  lemma MergeOne(m: StateMap)
    ensures MergeAll([m]) == m
  {
    assert [m][..0] == [];
    assert Resolution.Merged(map[], m) == m;
  }

  lemma AllClean<S(!new)>(o: Oracle<S>, universe: set<Key>, scope: S)
    requires NodeWalk.ValidOracle(o, universe) && forall s: S, name :: o.matches(s, name) != NodeWalk.CriteriaError
    ensures NodeWalk.EachServiceClean(o, NodeWalk.Visits(o, universe, scope))
  {
  }

  lemma CycleUnranked(m: StateMap, a: ComponentInstanceKey, b: ComponentInstanceKey)
    requires HasCycle(m, a, b)
    ensures !exists rank :: RanksEdges(m, rank)
  {
    var p, q := NodeWalk.ComponentKeyOf(a, "p").GetKey(), NodeWalk.ComponentKeyOf(b, "p").GetKey();
    if rank :| RanksEdges(m, rank) {
      EdgeRanked(m, rank, a.GetKey(), p);
      EdgeRanked(m, rank, p, b.GetKey());
      EdgeRanked(m, rank, b.GetKey(), q);
      EdgeRanked(m, rank, q, a.GetKey());
    }
  }

  lemma EdgeRanked(m: StateMap, rank: map<Key, nat>, k: Key, e: Key)
    requires RanksEdges(m, rank) && HasEdge(m, k, e)
    ensures k in rank && e in rank && rank[e] < rank[k]
  {
  }
}

/** Which dependencies are reported as deployed: those that no pending action of the comparison affects. */
module DeployedStatus {
  import opened Prelude
  import opened Instances
  import opened ComponentActions
  import opened Scheduler
  import opened SchedulerLiveness
  import opened DiffSpec
  import opened Resolution

  /** The dependencies that a pending action says something about. One that is attached or detached is hit alone if it is asked for. */
  predicate Affects(actual: StateMap, desired: StateMap, asked: set<Key>, a: Action, d: Key) {
    if (a.Attach? || a.Detach?) && a.dep in asked then d == a.dep
    else a.key != "" && (d in Consumers(Lookup(actual, a.key)) || d in Consumers(Lookup(desired, a.key)))
  }

  /** A code instance whose endpoints have not been fetched since its last change. */
  predicate EndpointsStale(actual: StateMap, k: Key, d: Key) {
    k in actual && actual[k].isCode && !actual[k].endpointsUpToDate && d in actual[k].dependencyKeys
  }

  /** The actions of a plan, in some order. */
  ghost predicate ListsActions(plan: PlanView, order: seq<Action>) {
    forall a :: a in order <==> exists k :: k in plan.actions && a in plan.actions[k]
  }

  class DependenciesStatus {
    var Deployed: map<Key, bool>

    constructor (deployed: map<Key, bool>)
      ensures Deployed == deployed
    {
      Deployed := deployed;
    }

    /** Those of the given dependencies that are asked for are not deployed. */
    method Reset(affected: set<Key>)
      modifies this
      ensures Deployed.Keys == old(Deployed).Keys
      ensures forall d :: d in Deployed ==> (Deployed[d] <==> old(Deployed)[d] && d !in affected)
    {
      var todo := affected;
      while todo != {}
        invariant todo <= affected && Deployed.Keys == old(Deployed).Keys
        invariant forall d :: d in Deployed ==> (Deployed[d] <==> old(Deployed)[d] && d !in affected - todo)
      {
        var dKey :| dKey in todo;
        todo := todo - {dKey};
        if dKey in Deployed {
          Deployed := Deployed[dKey := false];
        }
      }
    }

    /** What is done for one pending action. */
    method Visit(act: Action, actualState: StateMap, desiredState: StateMap)
      modifies this
      ensures Deployed.Keys == old(Deployed).Keys
      ensures forall d :: d in Deployed ==>
        (Deployed[d] <==> old(Deployed)[d] && !Affects(actualState, desiredState, old(Deployed).Keys, act, d))
    {
      if act.Attach? && act.dep in Deployed {
        Deployed := Deployed[act.dep := false];
        return;
      }
      if act.Detach? && act.dep in Deployed {
        Deployed := Deployed[act.dep := false];
        return;
      }
      var key := act.key;
      if |key| > 0 {
        var affectedDepKeys: set<Key> := {};
        if key in actualState {
          affectedDepKeys := affectedDepKeys + actualState[key].dependencyKeys.Keys;
        }
        if key in desiredState {
          affectedDepKeys := affectedDepKeys + desiredState[key].dependencyKeys.Keys;
        }
        Reset(affectedDepKeys);
      }
    }

    /**
     The whole check, whatever the order in which the pending actions are visited: a dependency stays
     deployed exactly if none of them affects it and the endpoints of its code instances are up to date.
     */
    method FetchDeploymentStatusForDependencies(order: seq<Action>, actualState: StateMap, desiredState: StateMap)
      modifies this
      ensures Deployed.Keys == old(Deployed).Keys
      ensures forall d :: d in Deployed ==>
        (Deployed[d] <==> old(Deployed)[d] && StaysDeployed(actualState, desiredState, old(Deployed).Keys, order, d))
    {
      VisitAll(order, actualState, desiredState);
      var todo := actualState.Keys;
      ghost var visited := Deployed;
      while todo != {}
        invariant todo <= actualState.Keys && Deployed.Keys == old(Deployed).Keys
        invariant forall d :: d in Deployed ==>
          (Deployed[d] <==> visited[d] && forall k :: k in actualState && k !in todo ==> !EndpointsStale(actualState, k, d))
      {
        var k :| k in todo;
        todo := todo - {k};
        var instance := actualState[k];
        if instance.isCode && !instance.endpointsUpToDate {
          Reset(instance.dependencyKeys.Keys);
        }
      }
    }

    method VisitAll(order: seq<Action>, actualState: StateMap, desiredState: StateMap)
      modifies this
      ensures Deployed.Keys == old(Deployed).Keys
      ensures forall d :: d in Deployed ==>
        (Deployed[d] <==> old(Deployed)[d] && NotAffected(actualState, desiredState, old(Deployed).Keys, order, d))
    {
      var i := 0;
      while i < |order|
        invariant 0 <= i <= |order| && Deployed.Keys == old(Deployed).Keys
        invariant forall d :: d in Deployed ==>
          (Deployed[d] <==> old(Deployed)[d] && NotAffected(actualState, desiredState, old(Deployed).Keys, order[..i], d))
      {
        Visit(order[i], actualState, desiredState);
        assert order[..i + 1] == order[..i] + [order[i]];
        i := i + 1;
      }
      assert order[..i] == order;
    }
  }

  ghost predicate NotAffected(actual: StateMap, desired: StateMap, asked: set<Key>, order: seq<Action>, d: Key) {
    forall a :: a in order ==> !Affects(actual, desired, asked, a, d)
  }

  ghost predicate StaysDeployed(actual: StateMap, desired: StateMap, asked: set<Key>, order: seq<Action>, d: Key) {
    NotAffected(actual, desired, asked, order, d) && forall k :: !EndpointsStale(actual, k, d)
  }

  // ---- The visits.

  /** The actions of the plan with the given positions. */
  function ActionsAt(plan: PlanView, run: seq<ActionId>): seq<Action>
    requires forall a :: a in run ==> a in GraphOf(plan).AllActions()
  {
    if run == [] then []
    else
      assert run[0] in GraphOf(plan).AllActions();
      [plan.actions[run[0].node][run[0].index]] + ActionsAt(plan, run[1..])
  }

  lemma {:induction false} ActionsAtMember(plan: PlanView, run: seq<ActionId>, x: Action)
    requires forall a :: a in run ==> a in GraphOf(plan).AllActions()
    ensures x in ActionsAt(plan, run) <==> exists a :: a in run && plan.actions[a.node][a.index] == x
  {
    if run != [] {
      assert forall a :: a in run <==> a == run[0] || a in run[1..];
      ActionsAtMember(plan, run[1..], x);
    }
  }

  /**
   The visits are those of a run of the plan by the scheduler, with a function that never fails: under every
   schedule that returns, each action of the plan is visited, exactly once.
   */
  lemma RunVisitsAll<V(!new)>(plan: PlanView, c: Config<V>, s0: State<V>, moves: seq<Move>, s: State<V>)
    requires c.graph == GraphOf(plan) && c.exec == Noop<V>() && Init(c, s0) && Leads(c, s0, moves, s) && s.returned
    ensures NoDuplicates(ActionsRun(c, s0, moves))
    ensures forall a :: a in ActionsRun(c, s0, moves) <==> a in GraphOf(plan).AllActions()
    ensures ListsActions(plan, ActionsAt(plan, ActionsRun(c, s0, moves)))
  {
    NoopRunsAll(c, s0, moves, s);
    var run := ActionsRun(c, s0, moves);
    forall x ensures x in ActionsAt(plan, run) <==> exists k :: k in plan.actions && x in plan.actions[k] {
      ActionsAtMember(plan, run, x);
      if k :| k in plan.actions && x in plan.actions[k] {
        var i: nat :| i < |plan.actions[k]| && plan.actions[k][i] == x;
        assert ActionId(k, i) in run;
      }
    }
  }

  /** The order of the visits does not matter. */
  lemma OrderIrrelevant(plan: PlanView, actual: StateMap, desired: StateMap, asked: set<Key>, order: seq<Action>, order': seq<Action>, d: Key)
    requires ListsActions(plan, order) && ListsActions(plan, order')
    ensures StaysDeployed(actual, desired, asked, order, d) <==> StaysDeployed(actual, desired, asked, order', d)
  {
  }

  /**
   Soundness: a dependency that is still reported as deployed sits on the same instances in the actual and in
   the desired state, with equal parameters and up-to-date endpoints where these are code.
   */
  lemma DeployedIsDeployed(actual: StateMap, desired: StateMap, plan: PlanView, asked: set<Key>, order: seq<Action>, d: Key)
    requires WellKeyed(actual) && IsDiff(actual, desired, plan) && ListsActions(plan, order) && d in asked
    requires StaysDeployed(actual, desired, asked, order, d)
    ensures forall k :: d in Consumers(Lookup(actual, k)) <==> d in Consumers(Lookup(desired, k))
    ensures forall k :: k in actual && k in desired && d in actual[k].dependencyKeys && (actual[k].isCode || desired[k].isCode) ==>
      actual[k].codeParams.DeepEqual(desired[k].codeParams)
    ensures forall k :: d in Consumers(Lookup(actual, k)) && actual[k].isCode ==> actual[k].endpointsUpToDate
  {
    forall k
      ensures d in Consumers(Lookup(actual, k)) <==> d in Consumers(Lookup(desired, k))
      ensures d in Consumers(Lookup(actual, k)) ==> !Outdated(Lookup(actual, k), Lookup(desired, k))
      ensures d in Consumers(Lookup(actual, k)) && actual[k].isCode ==> actual[k].endpointsUpToDate
    {
      InstanceDeployed(actual, desired, plan, asked, order, d, k);
    }
  }

  lemma InstanceDeployed(actual: StateMap, desired: StateMap, plan: PlanView, asked: set<Key>, order: seq<Action>, d: Key, k: Key)
    requires WellKeyed(actual) && IsDiff(actual, desired, plan) && ListsActions(plan, order) && d in asked
    requires StaysDeployed(actual, desired, asked, order, d)
    ensures d in Consumers(Lookup(actual, k)) <==> d in Consumers(Lookup(desired, k))
    ensures d in Consumers(Lookup(actual, k)) ==> !Outdated(Lookup(actual, k), Lookup(desired, k))
    ensures d in Consumers(Lookup(actual, k)) && actual[k].isCode ==> actual[k].endpointsUpToDate
  {
    var v, w := Lookup(actual, k), Lookup(desired, k);
    if d in Consumers(v) && d !in Consumers(w) {
      RequiredIsVisited(actual, desired, plan, order, k, Detach(k, d));
    }
    if d in Consumers(w) && d !in Consumers(v) {
      RequiredIsVisited(actual, desired, plan, order, k, Attach(k, d, DependencyKeys(w)[d]));
    }
    if Outdated(v, w) {
      RequiredIsVisited(actual, desired, plan, order, k, Update(k));
      KeyNotEmpty(actual[k].cik);
      assert d in Consumers(v) ==> Affects(actual, desired, asked, Update(k), d);
    }
    assert !EndpointsStale(actual, k, d);
  }

  lemma RequiredIsVisited(actual: StateMap, desired: StateMap, plan: PlanView, order: seq<Action>, k: Key, a: Action)
    requires IsDiff(actual, desired, plan) && ListsActions(plan, order) && RequiredAction(actual, desired, k, a)
    ensures a in order
  {
    assert NodeOf(actual, desired, k, ActionsOf(plan, k));
    assert a in ActionsOf(plan, k);
  }

  // ---- The exact condition.

  /**
   Nothing is pending for the instance that would count against its consumers: its code is as desired, and so is
   that of its components if it is a service; only dependencies that are asked for come or go; and its
   endpoints are known if it is code.
   */
  ghost predicate Quiet(actual: StateMap, desired: StateMap, asked: set<Key>, k: Key) {
    && !Outdated(Lookup(actual, k), Lookup(desired, k))
    && (forall c :: c in desired && ParentKey(desired[c]) == k ==> !Outdated(Lookup(actual, c), Lookup(desired, c)))
    && (forall e :: e !in asked ==> (e in Consumers(Lookup(actual, k)) <==> e in Consumers(Lookup(desired, k))))
    && (k in actual && actual[k].isCode ==> actual[k].endpointsUpToDate)
  }

  /**
   A dependency that is asked for stays deployed if and only if it is on the same instances in both states and
   nothing that counts against it is pending for any of them.
   */
  lemma DeployedIff(actual: StateMap, desired: StateMap, plan: PlanView, asked: set<Key>, order: seq<Action>, d: Key)
    requires WellKeyed(actual) && WellKeyed(desired) && IsDiff(actual, desired, plan) && ListsActions(plan, order) && d in asked
    ensures StaysDeployed(actual, desired, asked, order, d) <==>
      && (forall k :: d in Consumers(Lookup(actual, k)) <==> d in Consumers(Lookup(desired, k)))
      && (forall k :: d in Consumers(Lookup(actual, k)) ==> Quiet(actual, desired, asked, k))
  {
    if StaysDeployed(actual, desired, asked, order, d) {
      DeployedIsDeployed(actual, desired, plan, asked, order, d);
      forall k | d in Consumers(Lookup(actual, k)) ensures Quiet(actual, desired, asked, k) {
        DeployedIsQuiet(actual, desired, plan, asked, order, d, k);
      }
    }
    if (forall k :: d in Consumers(Lookup(actual, k)) <==> d in Consumers(Lookup(desired, k)))
        && (forall k :: d in Consumers(Lookup(actual, k)) ==> Quiet(actual, desired, asked, k)) {
      forall a | a in order ensures !Affects(actual, desired, asked, a, d) {
        QuietNotAffected(actual, desired, plan, asked, order, d, a);
      }
      forall k ensures !EndpointsStale(actual, k, d) {
        assert d in Consumers(Lookup(actual, k)) ==> Quiet(actual, desired, asked, k);
      }
    }
  }

  lemma DeployedIsQuiet(actual: StateMap, desired: StateMap, plan: PlanView, asked: set<Key>, order: seq<Action>, d: Key, k: Key)
    requires WellKeyed(actual) && WellKeyed(desired) && IsDiff(actual, desired, plan) && ListsActions(plan, order) && d in asked
    requires StaysDeployed(actual, desired, asked, order, d) && d in Consumers(Lookup(actual, k))
    ensures Quiet(actual, desired, asked, k)
  {
    var v, w := Lookup(actual, k), Lookup(desired, k);
    InstanceDeployed(actual, desired, plan, asked, order, d, k);
    KeyNotEmpty(actual[k].cik);
    forall c | c in desired && ParentKey(desired[c]) == k ensures !Outdated(Lookup(actual, c), Lookup(desired, c)) {
      if Outdated(Lookup(actual, c), Lookup(desired, c)) {
        RequiredIsVisited(actual, desired, plan, order, k, Update(k));
        assert Affects(actual, desired, asked, Update(k), d);
      }
    }
    forall e | e !in asked ensures e in Consumers(v) <==> e in Consumers(w) {
      if e in Consumers(v) && e !in Consumers(w) {
        RequiredIsVisited(actual, desired, plan, order, k, Detach(k, e));
        assert Affects(actual, desired, asked, Detach(k, e), d);
      }
      if e in Consumers(w) && e !in Consumers(v) {
        RequiredIsVisited(actual, desired, plan, order, k, Attach(k, e, DependencyKeys(w)[e]));
        assert Affects(actual, desired, asked, Attach(k, e, DependencyKeys(w)[e]), d);
      }
    }
  }

  lemma QuietNotAffected(actual: StateMap, desired: StateMap, plan: PlanView, asked: set<Key>, order: seq<Action>, d: Key, a: Action)
    requires IsDiff(actual, desired, plan) && ListsActions(plan, order) && d in asked && a in order
    requires forall k :: d in Consumers(Lookup(actual, k)) <==> d in Consumers(Lookup(desired, k))
    requires forall k :: d in Consumers(Lookup(actual, k)) ==> Quiet(actual, desired, asked, k)
    ensures !Affects(actual, desired, asked, a, d)
  {
    var k :| k in plan.actions && a in plan.actions[k];
    assert NodeOf(actual, desired, k, ActionsOf(plan, k));
    assert RequiredAction(actual, desired, k, a);
    assert d in Consumers(Lookup(actual, k)) ==> Quiet(actual, desired, asked, k);
  }
}

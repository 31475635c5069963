/**
 What a pass leaves of each field of each instance, and what that means for the endpoints of code and for
 the dependencies that are reported as deployed.
 */
module Endpoints {
  import opened Prelude
  import opened ComponentKey
  import opened Instances
  import opened ComponentActions
  import opened Scheduler
  import opened SchedulerSafety
  import opened SchedulerLiveness
  import opened DiffSpec
  import opened Convergence
  import opened PassOutcome
  import opened DeployedStatus

  /** The update of the instance has succeeded, and not to nil parameters. */
  ghost predicate UpdateDone(desired: StateMap, plan: PlanView, s: State<Instance>, k: Key) {
    Succeeds(plan, s, k, Update(k)) && k in desired && !desired[k].codeParams.NilParams?
  }

  /** The first actions of the node that have been done, as a list. */
  lemma DoneList(desired: StateMap, a: StateMap, b: StateMap, plan: PlanView, luck: ActionId -> Luck, atomicMark: bool,
                 s0: State<Instance>, moves: seq<Move>, s: State<Instance>, k: Key) returns (done: seq<Action>)
    requires PassBy(desired, a, b, plan, luck, atomicMark, s0, moves, s)
    ensures EntryForm(Lookup(a, k), Lookup(desired, k), k, done, Lookup(b, k))
    ensures forall x :: Succeeds(plan, s, k, x) <==> x in done
    ensures forall x :: x in done ==> RequiredAction(a, desired, k, x)
  {
    if k in plan.actions {
      var j := PassForm(desired, a, b, plan, luck, atomicMark, s0, moves, s, k);
      done := plan.actions[k][..j];
      assert NodeOf(a, desired, k, ActionsOf(plan, k));
      forall x ensures Succeeds(plan, s, k, x) <==> x in done {
        SucceedsIffDone(plan, desired, a, s, k, j, x);
      }
      forall x | x in done ensures RequiredAction(a, desired, k, x) {
        assert x in plan.actions[k];
      }
    } else {
      done := [];
      PassEntry(desired, a, b, plan, luck, atomicMark, s0, moves, s, k);
    }
  }

  // ---- Fields.

  /**
   An instance is missing after a pass exactly if it has been deleted, or was missing and has not been created.
   One that has been created is as desired, up to endpoints that an update has made stale.
   */
  lemma PresentAfterPass(desired: StateMap, a: StateMap, b: StateMap, plan: PlanView, luck: ActionId -> Luck, atomicMark: bool,
                         s0: State<Instance>, moves: seq<Move>, s: State<Instance>, k: Key)
    requires PassBy(desired, a, b, plan, luck, atomicMark, s0, moves, s)
    ensures k !in b <==> Succeeds(plan, s, k, Delete(k)) || (k !in a && !Succeeds(plan, s, k, Create(k)))
    ensures Succeeds(plan, s, k, Create(k)) ==>
      k in b && k in desired && CreatedFrom(desired[k], b[k])
  {
    var done := DoneList(desired, a, b, plan, luck, atomicMark, s0, moves, s, k);
    NotBoth(a, desired, k, done);
  }

  lemma NotBoth(prev: StateMap, next: StateMap, k: Key, done: seq<Action>)
    requires forall x :: x in done ==> RequiredAction(prev, next, k, x)
    ensures Create(k) in done ==> Delete(k) !in done
  {
    assert RequiredAction(prev, next, k, Create(k)) ==> !RequiredAction(prev, next, k, Delete(k));
  }

  /**
   Of an instance that is there before and after, and has not been created anew, a pass changes no more than this:
   consumers go and come as detachments and attachments have succeeded, new ones at the desired depth; an
   update replaces the code parameters and makes the endpoints stale.
   */
  lemma FieldsAfterPass(desired: StateMap, a: StateMap, b: StateMap, plan: PlanView, luck: ActionId -> Luck, atomicMark: bool,
                        s0: State<Instance>, moves: seq<Move>, s: State<Instance>, k: Key)
    requires PassBy(desired, a, b, plan, luck, atomicMark, s0, moves, s)
    requires k in a && k in b && !Succeeds(plan, s, k, Create(k))
    ensures var updated := UpdateDone(desired, plan, s, k);
      && b[k].cik == a[k].cik && b[k].isCode == a[k].isCode && b[k].discovery == a[k].discovery
      && b[k].edgesOut == a[k].edgesOut && b[k].error == a[k].error
      && b[k].codeParams == (if updated then desired[k].codeParams else a[k].codeParams)
      && b[k].endpointsUpToDate == (a[k].endpointsUpToDate && !updated)
    ensures forall d :: ConsumerFollows(desired, plan, s, k, a[k], b[k], d)
  {
    var done := DoneList(desired, a, b, plan, luck, atomicMark, s0, moves, s, k);
    forall d ensures ConsumerFollows(desired, plan, s, k, a[k], b[k], d) {
      ConsumerKept(a, desired, k, done, b[k], d);
    }
  }

  /** A consumer is gone if its detachment has succeeded, at the desired depth if its attachment has, and otherwise as before. */
  ghost predicate ConsumerFollows(desired: StateMap, plan: PlanView, s: State<Instance>, k: Key, x: Instance, y: Instance, d: Key) {
    Lookup(y.dependencyKeys, d) ==
    if Succeeds(plan, s, k, Detach(k, d)) then None
    else if k in desired && d in desired[k].dependencyKeys && Succeeds(plan, s, k, Attach(k, d, desired[k].dependencyKeys[d]))
    then Some(desired[k].dependencyKeys[d])
    else Lookup(x.dependencyKeys, d)
  }

  function ConsumerAfter(desired: StateMap, x: Instance, k: Key, done: seq<Action>, d: Key): Option<int> {
    if Detach(k, d) in done then None
    else if k in desired && d in desired[k].dependencyKeys && Attach(k, d, desired[k].dependencyKeys[d]) in done
      then Some(desired[k].dependencyKeys[d])
    else Lookup(x.dependencyKeys, d)
  }

  lemma ConsumerKept(prev: StateMap, next: StateMap, k: Key, done: seq<Action>, v: Instance, d: Key)
    requires k in prev && EntryForm(Some(prev[k]), Lookup(next, k), k, done, Some(v)) && Create(k) !in done
    requires forall x :: x in done ==> RequiredAction(prev, next, k, x)
    ensures Lookup(v.dependencyKeys, d) == ConsumerAfter(next, prev[k], k, done, d)
  {
    assert d in Detached(done) <==> Detach(k, d) in done by {
      forall x | x in done && x.Detach? && x.dep == d ensures x == Detach(k, d) {
        assert RequiredAction(prev, next, k, x);
      }
    }
    AttachedAsDesired(prev, next, k, done, d);
    if done != [] {
      assert d in Consumers(Some(v)) <==> (d in Consumers(Some(prev[k])) && d !in Detached(done)) || d in Attached(done);
    }
  }

  lemma AttachedAsDesired(prev: StateMap, next: StateMap, k: Key, done: seq<Action>, d: Key)
    requires forall x :: x in done ==> RequiredAction(prev, next, k, x)
    ensures d in Attached(done) <==> k in next && d in next[k].dependencyKeys && Attach(k, d, next[k].dependencyKeys[d]) in done
    ensures !(d in Attached(done) && d in Detached(done))
  {
    forall x | x in done && x.Attach? && x.dep == d ensures k in next && d in next[k].dependencyKeys && x == Attach(k, d, next[k].dependencyKeys[d]) {
      assert RequiredAction(prev, next, k, x);
    }
    forall x | x in done && x.Detach? && x.dep == d ensures d !in Consumers(Lookup(next, k)) {
      assert RequiredAction(prev, next, k, x);
    }
  }

  // ---- Endpoints.

  ghost predicate NoEndpoints(m: StateMap) {
    forall k :: k in m ==> !m[k].endpointsUpToDate
  }

  /** After a pass, endpoints are up to date exactly if they were before and the instance has been neither created nor updated. */
  lemma EndpointsKeptIff(desired: StateMap, a: StateMap, b: StateMap, plan: PlanView, luck: ActionId -> Luck, atomicMark: bool,
                         s0: State<Instance>, moves: seq<Move>, s: State<Instance>, k: Key)
    requires PassBy(desired, a, b, plan, luck, atomicMark, s0, moves, s) && NoEndpoints(desired) && k in b
    ensures b[k].endpointsUpToDate <==>
      k in a && a[k].endpointsUpToDate && !Succeeds(plan, s, k, Create(k)) && !UpdateDone(desired, plan, s, k)
  {
    if Succeeds(plan, s, k, Create(k)) {
      PresentAfterPass(desired, a, b, plan, luck, atomicMark, s0, moves, s, k);
    } else {
      assert k in a by {
        PresentAfterPass(desired, a, b, plan, luck, atomicMark, s0, moves, s, k);
      }
      FieldsAfterPass(desired, a, b, plan, luck, atomicMark, s0, moves, s, k);
    }
  }

  /**
   So no dependency on code that has been created or updated is reported as deployed until the endpoints have
   been fetched, whatever the comparison says by then.
   */
  lemma ChangedIsNotDeployed(desired: StateMap, a: StateMap, b: StateMap, plan: PlanView, luck: ActionId -> Luck, atomicMark: bool,
                             s0: State<Instance>, moves: seq<Move>, s: State<Instance>, k: Key,
                             next: StateMap, asked: set<Key>, order: seq<Action>, d: Key)
    requires PassBy(desired, a, b, plan, luck, atomicMark, s0, moves, s) && NoEndpoints(desired)
    requires Succeeds(plan, s, k, Create(k)) || UpdateDone(desired, plan, s, k)
    requires k in b && b[k].isCode && d in b[k].dependencyKeys
    ensures !StaysDeployed(b, next, asked, order, d)
  {
    EndpointsKeptIff(desired, a, b, plan, luck, atomicMark, s0, moves, s, k);
    assert EndpointsStale(b, k, d);
  }

  /** The state after endpoints have been fetched as far as possible. */
  ghost predicate RefreshedTo(m: StateMap, m': StateMap, luck: Key -> Luck) {
    m'.Keys == m.Keys && forall k :: k in m ==> m'[k] == Refreshed(m[k], luck(k))
  }

  /**
   Once the states agree and the endpoints have been fetched, a dependency that is asked for is deployed exactly
   if none of its code instances has been out of luck with stale endpoints; an agreement stays one.
   */
  lemma DeployedOnceFetched(m: StateMap, m': StateMap, luck: Key -> Luck, desired: StateMap, plan: PlanView, asked: set<Key>, order: seq<Action>, d: Key)
    requires WellKeyed(m) && WellKeyed(desired) && StatesAgree(m, desired) && RefreshedTo(m, m', luck)
    requires IsDiff(m', desired, plan) && ListsActions(plan, order) && d in asked
    ensures StatesAgree(m', desired)
    ensures StaysDeployed(m', desired, asked, order, d) <==>
      forall k :: k in m && d in m[k].dependencyKeys && m[k].isCode ==> m[k].endpointsUpToDate || luck(k) == GOOD
  {
    RefreshKeepsAgreement(m, m', luck, desired);
    DeployedIff(m', desired, plan, asked, order, d);
    forall k | d in Consumers(Lookup(m', k))
      ensures Quiet(m', desired, asked, k) <==> (m[k].isCode ==> m[k].endpointsUpToDate || luck(k) == GOOD)
    {
      AgreedIsQuiet(m', desired, asked, k);
    }
    forall k ensures d in Consumers(Lookup(m', k)) <==> d in Consumers(Lookup(desired, k)) {
      assert EntriesAgree(Lookup(m', k), Lookup(desired, k));
    }
  }

  lemma AgreedIsQuiet(m: StateMap, desired: StateMap, asked: set<Key>, k: Key)
    requires StatesAgree(m, desired)
    ensures Quiet(m, desired, asked, k) <==> (k in m && m[k].isCode ==> m[k].endpointsUpToDate)
  {
    assert EntriesAgree(Lookup(m, k), Lookup(desired, k));
    forall c ensures !Outdated(Lookup(m, c), Lookup(desired, c)) {
      assert EntriesAgree(Lookup(m, c), Lookup(desired, c));
    }
  }

  lemma RefreshKeepsAgreement(m: StateMap, m': StateMap, luck: Key -> Luck, desired: StateMap)
    requires StatesAgree(m, desired) && RefreshedTo(m, m', luck)
    ensures StatesAgree(m', desired) && (WellKeyed(m) ==> WellKeyed(m'))
  {
    forall k ensures EntriesAgree(Lookup(m', k), Lookup(desired, k)) {
      assert EntriesAgree(Lookup(m, k), Lookup(desired, k));
    }
  }
}

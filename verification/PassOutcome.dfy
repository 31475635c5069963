/**
 One pass of the enforcer: it compares, and applies the plan under some schedule with some luck, with the
 failure marks as coded or in time. What does it do to each instance?
 */
module PassOutcome {
  import opened Prelude
  import opened ComponentKey
  import opened Instances
  import opened ComponentActions
  import opened Scheduler
  import opened SchedulerSafety
  import opened SchedulerLiveness
  import opened SchedulerDeterminism
  import opened SchedulerFineGrain
  import opened DiffSpec
  import opened Convergence

  /** A pass that takes the actual state from a to b, towards the desired state. */
  ghost predicate PassBy(desired: StateMap, a: StateMap, b: StateMap, plan: PlanView, luck: ActionId -> Luck, atomicMark: bool,
                         s0: State<Instance>, moves: seq<Move>, s: State<Instance>) {
    var c := CloudConfig(plan, desired, luck, atomicMark);
    IsDiff(a, desired, plan) && Init(c, s0) && s0.world == a && Leads(c, s0, moves, s) && s.returned && s.world == b
  }

  /** The action with the given position in the list of a node has succeeded. */
  predicate Did(s: State<Instance>, k: Key, i: nat) {
    Lookup(s.outcomes, ActionId(k, i)) == Some(Succeeded)
  }

  // ---- One node.

  /** The entry after the given actions have been done. The update of a missing instance succeeds if its parameters are nil. */
  ghost predicate EntryForm(v0: Option<Instance>, w: Option<Instance>, k: Key, done: seq<Action>, v: Option<Instance>) {
    EntryAfterDone(v0, w, k, done, v) || (v == v0 == None && forall a :: a in done ==> a == Update(k))
  }

  /** An action that succeeds, with whatever luck, leaves the entry as expected. */
  lemma SuccessForm(prev: StateMap, next: StateMap, k: Key, done: seq<Action>, a: Action, luck: Luck, v: Option<Instance>)
    requires MayFollow(prev, next, k, done, a) && Effect(next, a, luck, v).1
    requires EntryForm(Lookup(prev, k), Lookup(next, k), k, done, v)
    ensures EntryForm(Lookup(prev, k), Lookup(next, k), k, done + [a], Effect(next, a, luck, v).0)
  {
    DoneExtended(done, a);
    assert RequiredAction(prev, next, k, a);
    if v == None {
      SuccessOnMissing(prev, next, k, done, a, luck);
    } else {
      SuccessOnEntry(prev, next, k, done, a, luck, v);
    }
  }

  lemma SuccessOnMissing(prev: StateMap, next: StateMap, k: Key, done: seq<Action>, a: Action, luck: Luck)
    requires MayFollow(prev, next, k, done, a) && Effect(next, a, luck, None).1
    requires EntryForm(Lookup(prev, k), Lookup(next, k), k, done, None)
    ensures EntryForm(Lookup(prev, k), Lookup(next, k), k, done + [a], Effect(next, a, luck, None).0)
  {
    DoneExtended(done, a);
    assert RequiredAction(prev, next, k, a);
    assert a.Create? || a == Update(k);
  }

  lemma SuccessOnEntry(prev: StateMap, next: StateMap, k: Key, done: seq<Action>, a: Action, luck: Luck, v: Option<Instance>)
    requires MayFollow(prev, next, k, done, a) && Effect(next, a, luck, v).1 && v.Some?
    requires EntryAfterDone(Lookup(prev, k), Lookup(next, k), k, done, v)
    ensures EntryAfterDone(Lookup(prev, k), Lookup(next, k), k, done + [a], Effect(next, a, luck, v).0)
  {
    DoneExtended(done, a);
    assert RequiredAction(prev, next, k, a);
    if a.Delete? || a.Create? || Create(k) in done {
      SuccessAroundCreation(prev, next, k, done, a, luck, v);
    } else {
      assert InUse(Lookup(prev, k), Lookup(next, k), k, done, v);
      match a
      case Update(_) => UpdateInUse(Lookup(prev, k), next, k, done, luck, v);
      case Attach(_, d, depth) => AttachInUse(Lookup(prev, k), Lookup(next, k), k, done, d, depth, v, Effect(next, a, luck, v).0);
      case Detach(_, d) =>
        NotAttached(prev, next, k, done, d);
        DetachInUse(Lookup(prev, k), Lookup(next, k), k, done, d, v, Effect(next, a, luck, v).0);
    }
  }

  lemma NotAttached(prev: StateMap, next: StateMap, k: Key, done: seq<Action>, d: Key)
    requires MayFollow(prev, next, k, done, Detach(k, d))
    ensures d !in Attached(done)
  {
    assert RequiredAction(prev, next, k, Detach(k, d));
    forall x | x in done && x.Attach? ensures x.dep != d {
      assert RequiredAction(prev, next, k, x);
    }
  }

  lemma SuccessAroundCreation(prev: StateMap, next: StateMap, k: Key, done: seq<Action>, a: Action, luck: Luck, v: Option<Instance>)
    requires MayFollow(prev, next, k, done, a) && Effect(next, a, luck, v).1 && v.Some?
    requires EntryAfterDone(Lookup(prev, k), Lookup(next, k), k, done, v)
    requires a.Delete? || a.Create? || Create(k) in done
    ensures EntryAfterDone(Lookup(prev, k), Lookup(next, k), k, done + [a], Effect(next, a, luck, v).0)
  {
    DoneExtended(done, a);
    assert RequiredAction(prev, next, k, a);
  }

  lemma FailureLeavesEntry(next: StateMap, a: Action, luck: Luck, v: Option<Instance>)
    requires !Effect(next, a, luck, v).1
    ensures Effect(next, a, luck, v).0 == v
  {
  }

  /** Of the first i actions of a node on its own, the first j succeed, and the entry is what these make of it. */
  ghost predicate RunForm(prev: StateMap, next: StateMap, plan: PlanView, c: Config<Instance>, k: Key, i: nat, j: nat)
    requires k in plan.actions && j <= i <= |plan.actions[k]|
  {
    && (j < i <==> Alone(c, k, i, Lookup(prev, k)).1)
    && EntryForm(Lookup(prev, k), Lookup(next, k), k, plan.actions[k][..j], Alone(c, k, i, Lookup(prev, k)).0)
    && forall x: nat {:trigger AloneOutcome(c, prev, ActionId(k, x))} :: x < i ==>
         (AloneOutcome(c, prev, ActionId(k, x)) == Succeeded <==> x < j)
  }

  lemma {:induction false} NodeForm(prev: StateMap, next: StateMap, plan: PlanView, c: Config<Instance>, luck: ActionId -> Luck, k: Key, i: nat)
    returns (j: nat)
    requires c.exec == CloudExec(plan, next, luck) && k in plan.actions && NodeOf(prev, next, k, plan.actions[k]) && i <= |plan.actions[k]|
    ensures j <= i && RunForm(prev, next, plan, c, k, i, j)
  {
    if i == 0 {
      j := 0;
      FormStart(prev, next, plan, c, k);
    } else {
      var j' := NodeForm(prev, next, plan, c, luck, k, i - 1);
      j := FormStep(prev, next, plan, c, luck, k, i - 1, j');
    }
  }

  lemma FormStep(prev: StateMap, next: StateMap, plan: PlanView, c: Config<Instance>, luck: ActionId -> Luck, k: Key, i: nat, j: nat)
    returns (j': nat)
    requires c.exec == CloudExec(plan, next, luck) && k in plan.actions && NodeOf(prev, next, k, plan.actions[k]) && i < |plan.actions[k]|
    requires j <= i && RunForm(prev, next, plan, c, k, i, j)
    ensures j' <= i + 1 && RunForm(prev, next, plan, c, k, i + 1, j')
  {
    if j < i {
      FormStopped(prev, next, plan, c, k, i, j);
      j' := j;
    } else {
      var (v, err) := Alone(c, k, i, Lookup(prev, k));
      assert !err;
      j' := FormNext(prev, next, plan, c, luck, k, i, v);
    }
  }

  lemma FormStart(prev: StateMap, next: StateMap, plan: PlanView, c: Config<Instance>, k: Key)
    requires k in plan.actions
    ensures RunForm(prev, next, plan, c, k, 0, 0)
  {
    assert plan.actions[k][..0] == [];
  }

  lemma FormStopped(prev: StateMap, next: StateMap, plan: PlanView, c: Config<Instance>, k: Key, i: nat, j: nat)
    requires k in plan.actions && j < i < |plan.actions[k]| && RunForm(prev, next, plan, c, k, i, j)
    ensures RunForm(prev, next, plan, c, k, i + 1, j)
  {
    AloneNext(c, k, i, Lookup(prev, k));
  }

  lemma FormNext(prev: StateMap, next: StateMap, plan: PlanView, c: Config<Instance>, luck: ActionId -> Luck, k: Key, i: nat, v: Option<Instance>)
    returns (j: nat)
    requires c.exec == CloudExec(plan, next, luck) && k in plan.actions && NodeOf(prev, next, k, plan.actions[k]) && i < |plan.actions[k]|
    requires RunForm(prev, next, plan, c, k, i, i) && Alone(c, k, i, Lookup(prev, k)) == (v, false)
    ensures j <= i + 1 && RunForm(prev, next, plan, c, k, i + 1, j)
  {
    var (v', ok) := c.exec(ActionId(k, i), v);
    CloudExecAt(plan, next, luck, k, i, v);
    j := if ok then i + 1 else i;
    EntryNext(prev, next, k, plan.actions[k], i, luck(ActionId(k, i)), v, v', ok);
    AloneNext(c, k, i, Lookup(prev, k));
    OutcomesNext(c, prev, k, i, v, ok);
  }

  lemma EntryNext(prev: StateMap, next: StateMap, k: Key, actions: seq<Action>, i: nat, luck: Luck,
                  v: Option<Instance>, v': Option<Instance>, ok: bool)
    requires NodeOf(prev, next, k, actions) && i < |actions| && (v', ok) == Effect(next, actions[i], luck, v)
    requires EntryForm(Lookup(prev, k), Lookup(next, k), k, actions[..i], v)
    ensures EntryForm(Lookup(prev, k), Lookup(next, k), k, actions[..if ok then i + 1 else i], v')
  {
    if ok {
      EntryAfterSuccess(prev, next, k, actions, i, luck, v);
    } else {
      FailureLeavesEntry(next, actions[i], luck, v);
    }
  }

  lemma EntryAfterSuccess(prev: StateMap, next: StateMap, k: Key, actions: seq<Action>, i: nat, luck: Luck, v: Option<Instance>)
    requires NodeOf(prev, next, k, actions) && i < |actions| && Effect(next, actions[i], luck, v).1
    requires EntryForm(Lookup(prev, k), Lookup(next, k), k, actions[..i], v)
    ensures EntryForm(Lookup(prev, k), Lookup(next, k), k, actions[..i + 1], Effect(next, actions[i], luck, v).0)
  {
    var done := actions[..i];
    assert actions[..i + 1] == done + [actions[i]];
    assert MayFollow(prev, next, k, done, actions[i]) by {
      DoneBefore(prev, next, k, actions, i);
    }
    SuccessForm(prev, next, k, done, actions[i], luck, v);
  }

  lemma OutcomesNext(c: Config<Instance>, w0: StateMap, k: Key, i: nat, v: Option<Instance>, ok: bool)
    requires Alone(c, k, i, Lookup(w0, k)) == (v, false) && c.exec(ActionId(k, i), v).1 == ok
    requires forall x: nat {:trigger AloneOutcome(c, w0, ActionId(k, x))} :: x < i ==> AloneOutcome(c, w0, ActionId(k, x)) == Succeeded
    ensures forall x: nat {:trigger AloneOutcome(c, w0, ActionId(k, x))} :: x < i + 1 ==>
      (AloneOutcome(c, w0, ActionId(k, x)) == Succeeded <==> x < if ok then i + 1 else i)
  {
    assert AloneOutcome(c, w0, ActionId(k, i)) == Succeeded <==> ok;
  }

  // ---- One node in a pass.

  /** The first j actions of the node have been done, and no others, and its entry is what these make of it. */
  ghost predicate FirstDone(desired: StateMap, a: StateMap, plan: PlanView, s: State<Instance>, k: Key, j: nat)
    requires k in plan.actions && j <= |plan.actions[k]|
  {
    && EntryForm(Lookup(a, k), Lookup(desired, k), k, plan.actions[k][..j], Lookup(s.world, k))
    && forall i: nat {:trigger Did(s, k, i)} :: i < |plan.actions[k]| ==> (Did(s, k, i) <==> i < j)
  }

  /**
   Whatever fails, and whenever failures are marked: of each node exactly the first actions are done, up to
   some number, and the entry is what these make of it.
   */
  lemma PassForm(desired: StateMap, a: StateMap, b: StateMap, plan: PlanView, luck: ActionId -> Luck, atomicMark: bool,
                 s0: State<Instance>, moves: seq<Move>, s: State<Instance>, k: Key) returns (j: nat)
    requires PassBy(desired, a, b, plan, luck, atomicMark, s0, moves, s) && k in plan.actions
    ensures j <= |plan.actions[k]| && FirstDone(desired, a, plan, s, k, j)
  {
    var c, n := CloudConfig(plan, desired, luck, atomicMark), |plan.actions[k]|;
    SkippedOrRan(c, s0, moves, s, k);
    assert NodeOf(a, desired, k, ActionsOf(plan, k));
    if NodeSkipped(c, a, s, k) {
      j := 0;
      forall i: nat | i < n ensures !Did(s, k, i) {
        assert Lookup(s.outcomes, ActionId(k, i)) == Some(Skipped);
      }
    } else {
      j := NodeForm(a, desired, plan, c, luck, k, n);
      forall i: nat | i < n ensures Did(s, k, i) <==> i < j {
        assert Lookup(s.outcomes, ActionId(k, i)) == Some(AloneOutcome(c, a, ActionId(k, i)));
      }
    }
  }

  /** The entry of a node afterwards: as before, or as running the list has left it. */
  lemma PassEntry(desired: StateMap, a: StateMap, b: StateMap, plan: PlanView, luck: ActionId -> Luck, atomicMark: bool,
                  s0: State<Instance>, moves: seq<Move>, s: State<Instance>, k: Key)
    requires PassBy(desired, a, b, plan, luck, atomicMark, s0, moves, s)
    ensures k !in plan.actions ==> Lookup(b, k) == Lookup(a, k) == None && Lookup(desired, k) == None
    ensures k in plan.actions && Lookup(b, k) != Lookup(a, k) ==>
      Lookup(b, k) == Alone(CloudConfig(plan, desired, luck, atomicMark), k, |plan.actions[k]|, Lookup(a, k)).0
  {
    SkippedOrRan(CloudConfig(plan, desired, luck, atomicMark), s0, moves, s, k);
  }

  /** A node of which an action has succeeded has been run. */
  lemma DoneIsRun(desired: StateMap, a: StateMap, b: StateMap, plan: PlanView, luck: ActionId -> Luck, atomicMark: bool,
                  s0: State<Instance>, moves: seq<Move>, s: State<Instance>, k: Key, i: nat)
    requires PassBy(desired, a, b, plan, luck, atomicMark, s0, moves, s) && k in plan.actions && i < |plan.actions[k]| && Did(s, k, i)
    ensures var c := CloudConfig(plan, desired, luck, atomicMark);
      && Lookup(b, k) == Alone(c, k, |plan.actions[k]|, Lookup(a, k)).0
      && !Alone(c, k, i + 1, Lookup(a, k)).1
  {
    var c := CloudConfig(plan, desired, luck, atomicMark);
    SkippedOrRan(c, s0, moves, s, k);
    AloneNext(c, k, i, Lookup(a, k));
    var outcome := Lookup(s.outcomes, ActionId(k, i));
    assert outcome == Some(Skipped) || outcome == Some(AloneOutcome(c, a, ActionId(k, i)));
  }

  /** The calls of an action that has succeeded have succeeded. */
  lemma DoneHadLuck(desired: StateMap, a: StateMap, b: StateMap, plan: PlanView, luck: ActionId -> Luck, atomicMark: bool,
                    s0: State<Instance>, moves: seq<Move>, s: State<Instance>, k: Key, i: nat)
    requires PassBy(desired, a, b, plan, luck, atomicMark, s0, moves, s) && k in plan.actions && i < |plan.actions[k]| && Did(s, k, i)
    ensures Enough(desired, plan.actions[k][i], luck(ActionId(k, i)))
  {
    var c := CloudConfig(plan, desired, luck, atomicMark);
    DoneIsRun(desired, a, b, plan, luck, atomicMark, s0, moves, s, k, i);
    AloneNext(c, k, i, Lookup(a, k));
    CloudExecAt(plan, desired, luck, k, i, Alone(c, k, i, Lookup(a, k)).0);
  }

  // ---- Lost deletions.

  /** An instance that is still there but has no consumers. */
  predicate Orphan(v: Option<Instance>) {
    v.Some? && v.value.dependencyKeys == map[]
  }

  /** The action of the node has succeeded. */
  ghost predicate Succeeds(plan: PlanView, s: State<Instance>, k: Key, a: Action) {
    k in plan.actions && exists i: nat :: i < |plan.actions[k]| && plan.actions[k][i] == a && Did(s, k, i)
  }

  lemma SucceedsIffDone(plan: PlanView, desired: StateMap, a: StateMap, s: State<Instance>, k: Key, j: nat, x: Action)
    requires k in plan.actions && j <= |plan.actions[k]| && FirstDone(desired, a, plan, s, k, j) && DistinctNames(plan.actions[k])
    ensures Succeeds(plan, s, k, x) <==> x in plan.actions[k][..j]
  {
    if Succeeds(plan, s, k, x) {
      var i: nat :| i < |plan.actions[k]| && plan.actions[k][i] == x && Did(s, k, i);
      assert plan.actions[k][..j][i] == x;
    }
    if x in plan.actions[k][..j] {
      var i :| 0 <= i < j && plan.actions[k][..j][i] == x;
      assert Did(s, k, i) && plan.actions[k][i] == x;
    }
  }

  /**
   Of an instance that is in use and no longer wanted, a pass leaves an orphan exactly if all its
   detachments succeed and its deletion does not.
   */
  lemma OrphanLeftIff(desired: StateMap, a: StateMap, b: StateMap, plan: PlanView, luck: ActionId -> Luck, atomicMark: bool,
                      s0: State<Instance>, moves: seq<Move>, s: State<Instance>, k: Key)
    requires PassBy(desired, a, b, plan, luck, atomicMark, s0, moves, s)
    requires Consumers(Lookup(a, k)) != {} && Consumers(Lookup(desired, k)) == {}
    ensures Orphan(Lookup(b, k)) <==>
      (forall d :: d in Consumers(Lookup(a, k)) ==> Succeeds(plan, s, k, Detach(k, d))) && !Succeeds(plan, s, k, Delete(k))
  {
    assert k in plan.actions;
    var j := PassForm(desired, a, b, plan, luck, atomicMark, s0, moves, s, k);
    var actions := plan.actions[k];
    assert NodeOf(a, desired, k, ActionsOf(plan, k));
    forall x ensures Succeeds(plan, s, k, x) <==> x in actions[..j] {
      SucceedsIffDone(plan, desired, a, s, k, j, x);
    }
    OrphanIffDetached(a, desired, k, actions, j, Lookup(b, k));
  }

  lemma OrphanIffDetached(prev: StateMap, next: StateMap, k: Key, actions: seq<Action>, j: nat, v: Option<Instance>)
    requires NodeOf(prev, next, k, actions) && j <= |actions|
    requires Consumers(Lookup(prev, k)) != {} && Consumers(Lookup(next, k)) == {}
    requires EntryForm(Lookup(prev, k), Lookup(next, k), k, actions[..j], v)
    ensures Orphan(v) <==> (forall d :: d in Consumers(Lookup(prev, k)) ==> Detach(k, d) in actions[..j]) && Delete(k) !in actions[..j]
  {
    var done := actions[..j];
    forall x | x in done ensures RequiredAction(prev, next, k, x) {
      assert x in actions;
    }
    assert Create(k) !in done && Attached(done) == {};
    forall d ensures d in Detached(done) <==> Detach(k, d) in done {
      if d in Detached(done) {
        var x :| x in done && x.Detach? && x.dep == d;
        assert RequiredAction(prev, next, k, x);
      }
    }
    OrphanIffNone(v);
    var d :| d in Consumers(Lookup(prev, k));
    if done == [] {
      assert Detach(k, d) !in done;
    } else if Delete(k) !in done {
      assert Consumers(v) == Consumers(Lookup(prev, k)) - Detached(done);
      AllTaken(Consumers(Lookup(prev, k)), Detached(done));
    }
  }

  lemma AllTaken(a: set<Key>, b: set<Key>)
    ensures a - b == {} <==> forall d :: d in a ==> d in b
  {
    if a - b == {} {
      forall d | d in a ensures d in b {
        assert d !in a - b;
      }
    }
  }

  lemma OrphanIffNone(v: Option<Instance>)
    ensures Orphan(v) <==> v.Some? && Consumers(v) == {}
  {
  }

  /** And as long as it is not wanted, it stays one in every later pass: nothing deletes it. */
  lemma OrphanStays(desired: StateMap, a: StateMap, b: StateMap, plan: PlanView, luck: ActionId -> Luck, atomicMark: bool,
                    s0: State<Instance>, moves: seq<Move>, s: State<Instance>, k: Key)
    requires PassBy(desired, a, b, plan, luck, atomicMark, s0, moves, s)
    requires Orphan(Lookup(a, k)) && Consumers(Lookup(desired, k)) == {}
    ensures Orphan(Lookup(b, k))
  {
    assert k in plan.actions;
    var j := PassForm(desired, a, b, plan, luck, atomicMark, s0, moves, s, k);
    var done := plan.actions[k][..j];
    forall x | x in done ensures x == Update(k) {
      OnlyUpdated(a, desired, plan, k, x);
    }
    OrphanKept(Lookup(a, k), Lookup(desired, k), k, done, Lookup(b, k));
  }

  lemma OnlyUpdated(a: StateMap, desired: StateMap, plan: PlanView, k: Key, x: Action)
    requires IsDiff(a, desired, plan) && k in plan.actions && x in plan.actions[k]
    requires Consumers(Lookup(a, k)) == {} && Consumers(Lookup(desired, k)) == {}
    ensures x == Update(k)
  {
    assert NodeOf(a, desired, k, ActionsOf(plan, k));
    assert RequiredAction(a, desired, k, x);
  }

  lemma OrphanKept(v0: Option<Instance>, w: Option<Instance>, k: Key, done: seq<Action>, v: Option<Instance>)
    requires Orphan(v0) && EntryForm(v0, w, k, done, v) && forall x :: x in done ==> x == Update(k)
    ensures Orphan(v)
  {
    assert Detached(done) == {} && Attached(done) == {};
    OrphanIffNone(v);
  }
}

/**
 End to end: what applying a plan does to the actual state, under every schedule.
 */
module Convergence {
  import opened Prelude
  import opened ComponentKey
  import opened Instances
  import opened ComponentActions
  import opened Scheduler
  import opened SchedulerSafety
  import opened SchedulerLiveness
  import opened SchedulerDeterminism
  import opened DiffSpec

  /** The action function of the engine: the effect of the action, with the luck it meets. */
  function CloudExec(plan: PlanView, desired: StateMap, luck: ActionId -> Luck): (ActionId, Option<Instance>) -> (Option<Instance>, bool) {
    (a: ActionId, v: Option<Instance>) =>
      if a.node in plan.actions && a.index < |plan.actions[a.node]|
      then Effect(desired, plan.actions[a.node][a.index], luck(a), v)
      else (v, false)
  }

  function CloudConfig(plan: PlanView, desired: StateMap, luck: ActionId -> Luck, atomicMark: bool): Config<Instance> {
    Config(GraphOf(plan), CloudExec(plan, desired, luck), atomicMark)
  }

  ghost function Detached(done: seq<Action>): set<Key> {
    set a | a in done && a.Detach? :: a.dep
  }

  ghost function Attached(done: seq<Action>): set<Key> {
    set a | a in done && a.Attach? :: a.dep
  }

  /** The entry of a node after the given actions of its list have succeeded, starting from v0. */
  ghost predicate EntryAfterDone(v0: Option<Instance>, w: Option<Instance>, k: Key, done: seq<Action>, v: Option<Instance>) {
    if Delete(k) in done then v == None
    else if Create(k) in done then
      v.Some? && w.Some? && CreatedFrom(w.value, v.value)
    else if done == [] then v == v0
    else
      && v.Some? && v0.Some?
      && Consumers(v) == Consumers(v0) - Detached(done) + Attached(done)
      && v.value.isCode == v0.value.isCode
      && v.value.codeParams ==
         (if Rewritten(w, k, done) then w.value.codeParams
          else v0.value.codeParams)
      && RestKept(v0.value, w, k, done, v.value)
  }

  /** A created entry is the desired one; an update of it may have made its endpoints stale. */
  predicate CreatedFrom(w: Instance, v: Instance) {
    v == w || v == w.(endpointsUpToDate := false)
  }

  /** The entry has been updated, and not to nil parameters, which would leave it alone. */
  predicate Rewritten(w: Option<Instance>, k: Key, done: seq<Action>) {
    Update(k) in done && w.Some? && !w.value.codeParams.NilParams?
  }

  /** Consumers that stay keep their depth, and new ones have the desired one; an update makes endpoints stale; nothing else changes. */
  ghost predicate RestKept(x: Instance, w: Option<Instance>, k: Key, done: seq<Action>, v: Instance) {
    && v == x.(dependencyKeys := v.dependencyKeys, codeParams := v.codeParams, endpointsUpToDate := x.endpointsUpToDate && !Rewritten(w, k, done))
    && (forall d :: d in v.dependencyKeys ==>
          Lookup(v.dependencyKeys, d) == Lookup(if d in Attached(done) then DependencyKeys(w) else x.dependencyKeys, d))
  }

  /** A node whose service is touched has consumers before and after: its parent closure guarantees it. */
  ghost predicate TouchedInUse(prev: StateMap, next: StateMap, k: Key) {
    Touched(prev, next, k) ==> Consumers(Lookup(prev, k)) != {} && Consumers(Lookup(next, k)) != {}
  }

  lemma ClosedTouchedInUse(prev: StateMap, next: StateMap, k: Key)
    requires WellKeyed(prev) && WellKeyed(next) && ParentClosed(prev) && ParentClosed(next)
    ensures TouchedInUse(prev, next, k)
  {
    if Touched(prev, next, k) {
      var c :| c in next && Outdated(Lookup(prev, c), Lookup(next, c)) && ParentKey(next[c]) == k;
      ParentDetermined(prev[c].cik, next[c].cik);
      var d :| d in next[c].dependencyKeys;
      var d' :| d' in prev[c].dependencyKeys;
      assert d in next[k].dependencyKeys && d' in prev[k].dependencyKeys;
    }
  }

  /** With good luck the next action of a node finds the instance it needs and succeeds. */
  lemma NextActionSucceeds(prev: StateMap, next: StateMap, k: Key, actions: seq<Action>, i: nat, v: Option<Instance>)
    requires NodeOf(prev, next, k, actions) && TouchedInUse(prev, next, k) && i < |actions|
    requires EntryAfterDone(Lookup(prev, k), Lookup(next, k), k, actions[..i], v)
    ensures var (v', ok) := Effect(next, actions[i], GOOD, v);
      ok && EntryAfterDone(Lookup(prev, k), Lookup(next, k), k, actions[..i + 1], v')
  {
    DoneBefore(prev, next, k, actions, i);
    ActionSucceedsAfter(prev, next, k, actions[..i], actions[i], v);
    assert actions[..i + 1] == actions[..i] + [actions[i]];
  }

  /** With any luck, the next action of a node succeeds exactly if the calls it makes do; otherwise the entry stays. */
  lemma LuckDecides(prev: StateMap, next: StateMap, k: Key, actions: seq<Action>, i: nat, luck: Luck, v: Option<Instance>)
    requires NodeOf(prev, next, k, actions) && TouchedInUse(prev, next, k) && i < |actions|
    requires EntryAfterDone(Lookup(prev, k), Lookup(next, k), k, actions[..i], v)
    ensures var (v', ok) := Effect(next, actions[i], luck, v);
      (ok <==> Enough(next, actions[i], luck)) && (!ok ==> v' == v)
  {
    NextActionSucceeds(prev, next, k, actions, i, v);
    assert actions[i] in actions;
    assert RequiredAction(prev, next, k, actions[i]);
    assert Effect(next, actions[i], GOOD, v).1;
  }

  /** What can have been done before an action. */
  ghost predicate MayFollow(prev: StateMap, next: StateMap, k: Key, done: seq<Action>, a: Action) {
    && (forall x :: x in done || x == a ==> RequiredAction(prev, next, k, x))
    && a !in done && (a.Detach? ==> Delete(k) !in done && Create(k) !in done)
    && (a.Attach? && Consumers(Lookup(prev, k)) == {} ==> Create(k) in done)
  }

  lemma ActionSucceedsAfter(prev: StateMap, next: StateMap, k: Key, done: seq<Action>, a: Action, v: Option<Instance>)
    requires TouchedInUse(prev, next, k) && MayFollow(prev, next, k, done, a)
    requires EntryAfterDone(Lookup(prev, k), Lookup(next, k), k, done, v)
    ensures var (v', ok) := Effect(next, a, GOOD, v);
      ok && EntryAfterDone(Lookup(prev, k), Lookup(next, k), k, done + [a], v')
  {
    if Consumers(Lookup(prev, k)) == {} || Consumers(Lookup(next, k)) == {} {
      SucceedsAtEnds(prev, next, k, done, a, v);
    } else {
      SucceedsInUse(prev, next, k, done, a, v);
    }
  }

  lemma DoneExtended(done: seq<Action>, a: Action)
    ensures Detached(done + [a]) == Detached(done) + if a.Detach? then {a.dep} else {}
    ensures Attached(done + [a]) == Attached(done) + if a.Attach? then {a.dep} else {}
    ensures forall x :: x in done + [a] <==> x in done || x == a
  {
  }

  /** The instance is going away, or is being created. */
  lemma SucceedsAtEnds(prev: StateMap, next: StateMap, k: Key, done: seq<Action>, a: Action, v: Option<Instance>)
    requires TouchedInUse(prev, next, k)
    requires Consumers(Lookup(prev, k)) == {} || Consumers(Lookup(next, k)) == {}
    requires forall x :: x in done + [a] ==> RequiredAction(prev, next, k, x)
    requires a !in done && (a.Detach? ==> Delete(k) !in done && Create(k) !in done)
    requires a.Attach? && Consumers(Lookup(prev, k)) == {} ==> Create(k) in done
    requires EntryAfterDone(Lookup(prev, k), Lookup(next, k), k, done, v)
    ensures var (v', ok) := Effect(next, a, GOOD, v);
      ok && EntryAfterDone(Lookup(prev, k), Lookup(next, k), k, done + [a], v')
  {
    DoneExtended(done, a);
    assert a in done + [a];
  }

  /** The instance has consumers before and after. */
  lemma SucceedsInUse(prev: StateMap, next: StateMap, k: Key, done: seq<Action>, a: Action, v: Option<Instance>)
    requires Consumers(Lookup(prev, k)) != {} && Consumers(Lookup(next, k)) != {}
    requires forall x :: x in done + [a] ==> RequiredAction(prev, next, k, x)
    requires EntryAfterDone(Lookup(prev, k), Lookup(next, k), k, done, v)
    ensures var (v', ok) := Effect(next, a, GOOD, v);
      ok && EntryAfterDone(Lookup(prev, k), Lookup(next, k), k, done + [a], v')
  {
    DoneExtended(done, a);
    assert a in done + [a];
    assert RequiredAction(prev, next, k, a);
    assert Create(k) !in done + [a] && Delete(k) !in done + [a];
    var w, luck := Lookup(next, k), GOOD;
    match a
    case Update(_) => UpdateInUse(Lookup(prev, k), next, k, done, luck, v);
    case Attach(_, d, depth) => AttachInUse(Lookup(prev, k), w, k, done, d, depth, v, Effect(next, a, luck, v).0);
    case Detach(_, d) => DetachInUse(Lookup(prev, k), w, k, done, d, v, Effect(next, a, luck, v).0);
  }

  /** The entry is there, and neither deleted nor created among the actions done. */
  ghost predicate InUse(v0: Option<Instance>, w: Option<Instance>, k: Key, done: seq<Action>, v: Option<Instance>) {
    && EntryAfterDone(v0, w, k, done, v) && v.Some? && v0.Some?
    && Create(k) !in done && Delete(k) !in done
  }

  lemma UpdateInUse(v0: Option<Instance>, next: StateMap, k: Key, done: seq<Action>, luck: Luck, v: Option<Instance>)
    requires InUse(v0, Lookup(next, k), k, done, v) && k in next && Effect(next, Update(k), luck, v).1
    ensures EntryAfterDone(v0, Lookup(next, k), k, done + [Update(k)], Effect(next, Update(k), luck, v).0)
  {
    DoneExtended(done, Update(k));
  }

  lemma AttachInUse(v0: Option<Instance>, w: Option<Instance>, k: Key, done: seq<Action>, d: Key, depth: int,
                    v: Option<Instance>, v': Option<Instance>)
    requires InUse(v0, w, k, done, v) && Lookup(DependencyKeys(w), d) == Some(depth)
    requires v' == Some(v.value.(dependencyKeys := v.value.dependencyKeys[d := depth]))
    ensures EntryAfterDone(v0, w, k, done + [Attach(k, d, depth)], v')
  {
    DoneExtended(done, Attach(k, d, depth));
  }

  lemma DetachInUse(v0: Option<Instance>, w: Option<Instance>, k: Key, done: seq<Action>, d: Key, v: Option<Instance>, v': Option<Instance>)
    requires InUse(v0, w, k, done, v) && d !in Attached(done)
    requires v' == Some(v.value.(dependencyKeys := v.value.dependencyKeys - {d}))
    ensures EntryAfterDone(v0, w, k, done + [Detach(k, d)], v')
  {
    DoneExtended(done, Detach(k, d));
  }

  lemma DoneBefore(prev: StateMap, next: StateMap, k: Key, actions: seq<Action>, i: nat)
    requires NodeOf(prev, next, k, actions) && i < |actions|
    ensures MayFollow(prev, next, k, actions[..i], actions[i])
  {
    var a, done := actions[i], actions[..i];
    if a.Attach? && Consumers(Lookup(prev, k)) == {} {
      assert a in actions;
      assert RequiredAction(prev, next, k, Create(k));
      var j :| 0 <= j < |actions| && actions[j] == Create(k);
      assert j < i;
      assert done[j] == Create(k);
    }
  }

  ghost predicate AllGood(luck: ActionId -> Luck) {
    forall a :: luck(a) == GOOD
  }

  /** With good luck a node runs through its whole list. */
  lemma {:induction false} NodeRuns(prev: StateMap, next: StateMap, plan: PlanView, c: Config<Instance>,
                                    luck: ActionId -> Luck, k: Key, i: nat)
    requires c.exec == CloudExec(plan, next, luck) && AllGood(luck)
    requires k in plan.actions && NodeOf(prev, next, k, plan.actions[k]) && TouchedInUse(prev, next, k)
    requires i <= |plan.actions[k]|
    ensures !Alone(c, k, i, Lookup(prev, k)).1
    ensures EntryAfterDone(Lookup(prev, k), Lookup(next, k), k, plan.actions[k][..i], Alone(c, k, i, Lookup(prev, k)).0)
  {
    if i > 0 {
      NodeRuns(prev, next, plan, c, luck, k, i - 1);
      var v := Alone(c, k, i - 1, Lookup(prev, k)).0;
      NextActionSucceeds(prev, next, k, plan.actions[k], i - 1, v);
      AloneNext(c, k, i - 1, Lookup(prev, k));
      CloudExecAt(plan, next, luck, k, i - 1, v);
    }
  }

  lemma CloudExecAt(plan: PlanView, next: StateMap, luck: ActionId -> Luck, k: Key, i: nat, v: Option<Instance>)
    requires k in plan.actions && i < |plan.actions[k]|
    ensures CloudExec(plan, next, luck)(ActionId(k, i), v) == Effect(next, plan.actions[k][i], luck(ActionId(k, i)), v)
  {
  }

  /** An outdated instance whose desired parameters are nil: its update is never written back. */
  predicate NeverUpdated(v: Option<Instance>, w: Option<Instance>) {
    Outdated(v, w) && w.value.codeParams.NilParams?
  }

  /** After the whole list, the entry has the desired consumers, and the desired parameters unless these are nil. */
  lemma WholeListConverges(prev: StateMap, next: StateMap, k: Key, actions: seq<Action>, v: Option<Instance>)
    requires NodeOf(prev, next, k, actions) && TouchedInUse(prev, next, k)
    requires EntryAfterDone(Lookup(prev, k), Lookup(next, k), k, actions, v)
    ensures Consumers(v) == Consumers(Lookup(next, k))
    ensures Outdated(v, Lookup(next, k)) <==> NeverUpdated(Lookup(prev, k), Lookup(next, k))
  {
    var v0, w := Lookup(prev, k), Lookup(next, k);
    assert RequiredAction(prev, next, k, Delete(k)) <==> Consumers(v0) != {} && Consumers(w) == {};
    assert RequiredAction(prev, next, k, Create(k)) <==> Consumers(v0) == {} && Consumers(w) != {};
    if Consumers(v0) != {} && Consumers(w) != {} {
      ConsumersConverge(prev, next, k, actions);
      assert RequiredAction(prev, next, k, Update(k)) <== Outdated(v0, w);
    }
  }

  lemma ConsumersConverge(prev: StateMap, next: StateMap, k: Key, actions: seq<Action>)
    requires NodeOf(prev, next, k, actions)
    ensures Consumers(Lookup(prev, k)) - Detached(actions) + Attached(actions) == Consumers(Lookup(next, k))
  {
    var v0, w := Lookup(prev, k), Lookup(next, k);
    forall d | d in Detached(actions) ensures d !in Consumers(w) {
      var a :| a in actions && a.Detach? && a.dep == d;
      assert RequiredAction(prev, next, k, a);
    }
    forall d | d in Attached(actions) ensures d in Consumers(w) {
      var a :| a in actions && a.Attach? && a.dep == d;
      assert RequiredAction(prev, next, k, a);
    }
    forall d | d in Consumers(w) && d !in Consumers(v0) ensures d in Attached(actions) {
      assert RequiredAction(prev, next, k, Attach(k, d, DependencyKeys(w)[d]));
    }
    forall d | d in Consumers(v0) && d !in Consumers(w) ensures d in Detached(actions) {
      assert RequiredAction(prev, next, k, Detach(k, d));
    }
  }

  /** Every service of which a component is outdated has consumers, now and as desired. */
  ghost predicate AllTouchedInUse(prev: StateMap, next: StateMap) {
    forall k {:trigger TouchedInUse(prev, next, k)} :: TouchedInUse(prev, next, k)
  }

  /** So it is in states that are closed under parents. */
  lemma ClosedAllInUse(prev: StateMap, next: StateMap)
    requires WellKeyed(prev) && WellKeyed(next) && ParentClosed(prev) && ParentClosed(next)
    ensures AllTouchedInUse(prev, next)
  {
    forall k ensures TouchedInUse(prev, next, k) {
      ClosedTouchedInUse(prev, next, k);
    }
  }

  lemma NodeSucceeds(prev: StateMap, next: StateMap, plan: PlanView, luck: ActionId -> Luck, atomicMark: bool, k: Key)
    requires AllTouchedInUse(prev, next) && IsDiff(prev, next, plan) && AllGood(luck)
    ensures var c := CloudConfig(plan, next, luck, atomicMark); !OwnFails(c, prev, k)
    ensures var c := CloudConfig(plan, next, luck, atomicMark);
      var v := if k in c.graph.sizes then Alone(c, k, c.graph.sizes[k], Lookup(prev, k)).0 else Lookup(prev, k);
      && Consumers(v) == Consumers(Lookup(next, k))
      && (Outdated(v, Lookup(next, k)) <==> NeverUpdated(Lookup(prev, k), Lookup(next, k)))
  {
    var c := CloudConfig(plan, next, luck, atomicMark);
    if k in plan.actions {
      var actions := plan.actions[k];
      assert actions == ActionsOf(plan, k);
      assert TouchedInUse(prev, next, k);
      NodeRuns(prev, next, plan, c, luck, k, |actions|);
      assert actions[..|actions|] == actions;
      WholeListConverges(prev, next, k, actions, Alone(c, k, |actions|, Lookup(prev, k)).0);
    }
  }

  lemma NoFailureNoBlock<V>(c: Config<V>, w0: map<Key, V>)
    requires forall k :: !OwnFails(c, w0, k)
    ensures MarksInTime(c, w0) && forall k :: !Blocked(c, w0, k)
  {
  }

  /**
   End-to-end correctness: with good luck, whatever the schedule, every action of the plan succeeds, and
   afterwards the actual state has the desired consumers everywhere and the desired parameters of the
   code in use, except where the desired parameters are nil.
   */
  lemma ApplyConverges(prev: StateMap, next: StateMap, plan: PlanView, luck: ActionId -> Luck, atomicMark: bool,
                       s0: State<Instance>, moves: seq<Move>, s: State<Instance>)
    requires AllTouchedInUse(prev, next) && IsDiff(prev, next, plan) && AllGood(luck)
    requires var c := CloudConfig(plan, next, luck, atomicMark);
      Init(c, s0) && s0.world == prev && Leads(c, s0, moves, s) && s.returned
    ensures s.success == |GraphOf(plan).AllActions()| && s.failed == 0 && s.skipped == 0
    ensures forall k :: Consumers(Lookup(s.world, k)) == Consumers(Lookup(next, k))
    ensures forall k :: Outdated(Lookup(s.world, k), Lookup(next, k)) <==> NeverUpdated(Lookup(prev, k), Lookup(next, k))
  {
    var c := CloudConfig(plan, next, luck, atomicMark);
    forall k ensures !OwnFails(c, prev, k) {
      NodeSucceeds(prev, next, plan, luck, atomicMark, k);
    }
    NoFailureNoBlock(c, prev);
    ReturnedAsForetold(c, s0, moves, s);
    NothingFails(c, prev, s);
    forall k
      ensures Consumers(Lookup(s.world, k)) == Consumers(Lookup(next, k))
      ensures Outdated(Lookup(s.world, k), Lookup(next, k)) <==> NeverUpdated(Lookup(prev, k), Lookup(next, k))
    {
      NodeSucceeds(prev, next, plan, luck, atomicMark, k);
      assert Lookup(s.world, k) == FinalEntry(c, prev, k);
    }
  }

  lemma ActionSucceeds<V>(c: Config<V>, w0: map<Key, V>, a: ActionId)
    requires a.node in c.graph.sizes && a.index < c.graph.sizes[a.node]
    requires !OwnFails(c, w0, a.node) && !Blocked(c, w0, a.node)
    ensures OutcomeOf(c, w0, a) == Succeeded
  {
    var v := Lookup(w0, a.node);
    AloneNext(c, a.node, a.index, v);
    if Alone(c, a.node, a.index + 1, v).1 {
      ErrorStays(c, a.node, a.index + 1, c.graph.sizes[a.node], v);
    }
  }

  lemma NothingFails<V>(c: Config<V>, w0: map<Key, V>, s: State<V>)
    requires Foretold(c, w0, s) && forall k :: !OwnFails(c, w0, k) && !Blocked(c, w0, k)
    ensures s.success == |c.graph.AllActions()| && s.failed == 0 && s.skipped == 0
  {
    forall a | a in s.outcomes ensures s.outcomes[a] == Succeeded {
      assert a in c.graph.AllActions();
      ActionSucceeds(c, w0, a);
    }
    assert ActionsWith(s.outcomes, Succeeded) == s.outcomes.Keys;
    assert ActionsWith(s.outcomes, Failed) == {} && ActionsWith(s.outcomes, Skipped) == {};
  }

  /**
   Convergence, and exactly when it fails: comparing again after a lucky apply asks for nothing if and
   only if no instance that was outdated has nil desired parameters.
   */
  lemma SecondDiffIsEmpty(prev: StateMap, next: StateMap, plan: PlanView, luck: ActionId -> Luck, atomicMark: bool,
                          s0: State<Instance>, moves: seq<Move>, s: State<Instance>, again: PlanView)
    requires AllTouchedInUse(prev, next) && IsDiff(prev, next, plan) && AllGood(luck)
    requires var c := CloudConfig(plan, next, luck, atomicMark);
      Init(c, s0) && s0.world == prev && Leads(c, s0, moves, s) && s.returned
    requires IsDiff(s.world, next, again)
    ensures NoActions(again) <==> forall k :: !NeverUpdated(Lookup(prev, k), Lookup(next, k))
  {
    ApplyConverges(prev, next, plan, luck, atomicMark, s0, moves, s);
    NoActionsIffAgree(s.world, next, again);
    if forall k :: !NeverUpdated(Lookup(prev, k), Lookup(next, k)) {
      assert forall k :: EntriesAgree(Lookup(s.world, k), Lookup(next, k));
    } else {
      var k :| NeverUpdated(Lookup(prev, k), Lookup(next, k));
      assert !EntriesAgree(Lookup(s.world, k), Lookup(next, k));
    }
  }

  // ---- The actual state stays fit for the next comparison.

  predicate KeyedEntry(k: Key, v: Option<Instance>) {
    v.Some? ==> v.value.cik.GetKey() == k && Plain(v.value.cik.componentName)
  }

  lemma EffectKeepsKey(next: StateMap, a: Action, luck: Luck, v: Option<Instance>)
    requires WellKeyed(next) && KeyedEntry(a.key, v)
    ensures KeyedEntry(a.key, Effect(next, a, luck, v).0)
  {
  }

  lemma {:induction false} NodeKeepsKey(next: StateMap, plan: PlanView, c: Config<Instance>, luck: ActionId -> Luck,
                                        k: Key, v0: Option<Instance>, i: nat)
    requires c.exec == CloudExec(plan, next, luck) && WellKeyed(next) && KeyedEntry(k, v0)
    requires k in plan.actions && i <= |plan.actions[k]| && forall a :: a in plan.actions[k] ==> a.key == k
    ensures KeyedEntry(k, Alone(c, k, i, v0).0)
  {
    if i > 0 {
      NodeKeepsKey(next, plan, c, luck, k, v0, i - 1);
      var v := Alone(c, k, i - 1, v0).0;
      assert plan.actions[k][i - 1] in plan.actions[k];
      AloneNext(c, k, i - 1, v0);
      CloudExecAt(plan, next, luck, k, i - 1, v);
      EffectKeepsKey(next, plan.actions[k][i - 1], luck(ActionId(k, i - 1)), v);
    }
  }

  lemma FinalEntryKeyed(prev: StateMap, next: StateMap, plan: PlanView, c: Config<Instance>, luck: ActionId -> Luck, k: Key)
    requires c.graph == GraphOf(plan) && c.exec == CloudExec(plan, next, luck)
    requires WellKeyed(prev) && WellKeyed(next) && IsDiff(prev, next, plan)
    ensures KeyedEntry(k, FinalEntry(c, prev, k))
  {
    if k in plan.actions {
      assert ActionsOf(plan, k) == plan.actions[k];
      forall a | a in plan.actions[k] ensures a.key == k {
        assert RequiredAction(prev, next, k, a);
      }
      NodeKeepsKey(next, plan, c, luck, k, Lookup(prev, k), |plan.actions[k]|);
    }
  }

  lemma LuckyWorld(prev: StateMap, next: StateMap, plan: PlanView, luck: ActionId -> Luck, atomicMark: bool,
                   s0: State<Instance>, moves: seq<Move>, s: State<Instance>)
    requires AllTouchedInUse(prev, next) && IsDiff(prev, next, plan) && AllGood(luck)
    requires var c := CloudConfig(plan, next, luck, atomicMark);
      Init(c, s0) && s0.world == prev && Leads(c, s0, moves, s) && s.returned
    ensures forall k :: Lookup(s.world, k) == FinalEntry(CloudConfig(plan, next, luck, atomicMark), prev, k)
  {
    var c := CloudConfig(plan, next, luck, atomicMark);
    forall k ensures !OwnFails(c, prev, k) {
      NodeSucceeds(prev, next, plan, luck, atomicMark, k);
    }
    NoFailureNoBlock(c, prev);
    ReturnedAsForetold(c, s0, moves, s);
  }

  /** After a lucky apply the actual state is again well keyed and closed under parents, as the next comparison needs it. */
  lemma ApplyKeepsValid(prev: StateMap, next: StateMap, plan: PlanView, luck: ActionId -> Luck, atomicMark: bool,
                        s0: State<Instance>, moves: seq<Move>, s: State<Instance>)
    requires WellKeyed(prev) && WellKeyed(next) && ParentClosed(next)
    requires AllTouchedInUse(prev, next) && IsDiff(prev, next, plan) && AllGood(luck)
    requires var c := CloudConfig(plan, next, luck, atomicMark);
      Init(c, s0) && s0.world == prev && Leads(c, s0, moves, s) && s.returned
    ensures WellKeyed(s.world) && ParentClosed(s.world) && AllTouchedInUse(s.world, next)
  {
    LuckyWorld(prev, next, plan, luck, atomicMark, s0, moves, s);
    forall k ensures KeyedEntry(k, Lookup(s.world, k)) {
      FinalEntryKeyed(prev, next, plan, CloudConfig(plan, next, luck, atomicMark), luck, k);
    }
    WorldKeyed(s.world);
    ApplyConverges(prev, next, plan, luck, atomicMark, s0, moves, s);
    SameConsumersClosed(s.world, next);
    ClosedAllInUse(s.world, next);
  }

  lemma WorldKeyed(m: StateMap)
    requires forall k :: KeyedEntry(k, Lookup(m, k))
    ensures WellKeyed(m)
  {
    forall k | k in m ensures m[k].cik.GetKey() == k && Plain(m[k].cik.componentName) {
      assert KeyedEntry(k, Lookup(m, k));
    }
  }

  lemma SameConsumersClosed(m: StateMap, next: StateMap)
    requires WellKeyed(m) && WellKeyed(next) && ParentClosed(next)
    requires forall k :: Consumers(Lookup(m, k)) == Consumers(Lookup(next, k))
    ensures ParentClosed(m)
  {
    forall k, d | k in m && d in m[k].dependencyKeys
      ensures ParentKey(m[k]) in m && d in m[ParentKey(m[k])].dependencyKeys
    {
      assert d in Consumers(Lookup(m, k)) && d in Consumers(Lookup(next, k));
      ParentDetermined(m[k].cik, next[k].cik);
      assert d in Consumers(Lookup(next, ParentKey(m[k])));
      assert d in Consumers(Lookup(m, ParentKey(m[k])));
    }
  }

  // ---- Which plans can be run at all.

  /** The rank of an instance exceeds that of all instances it has edges to. */
  ghost predicate RanksEdges(next: StateMap, rank: map<Key, nat>) {
    forall k, e :: k in next && e in next[k].edgesOut ==> k in rank && e in rank && rank[e] < rank[k]
  }

  /** A plan is acyclic, and so can be run to its end, exactly if the edges of the desired state have a rank. */
  lemma AcyclicIffEdgesRanked(prev: StateMap, next: StateMap, plan: PlanView)
    requires IsDiff(prev, next, plan)
    ensures Acyclic(GraphOf(plan)) <==> exists rank :: RanksEdges(next, rank)
  {
    if rank :| Ranked(GraphOf(plan), rank) {
      forall k, e | k in next && e in next[k].edgesOut ensures k in rank && e in rank && rank[e] < rank[k] {
        assert DesiredEdge(next, Edge(k, e));
        var i :| 0 <= i < |plan.edges| && plan.edges[i] == Edge(k, e);
        assert k in GraphOf(plan).sizes && e in GraphOf(plan).sizes;
      }
      assert RanksEdges(next, rank);
    }
    if rank :| RanksEdges(next, rank) {
      var all := map k | k in plan.actions :: if k in rank then rank[k] else 0;
      forall i | 0 <= i < |plan.edges| ensures all[plan.edges[i].needed] < all[plan.edges[i].waiter] {
        assert plan.edges[i] in plan.edges;
        assert DesiredEdge(next, plan.edges[i]);
      }
      assert Ranked(GraphOf(plan), all);
    }
  }
}

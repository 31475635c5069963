/**
 The enforcer starts over at once as long as the last apply had a successful action. With failures
 of any pattern, how often can that happen for a fixed desired state, and when is it reached?
 */
module Retry {
  import opened Prelude
  import opened ComponentKey
  import opened Instances
  import opened ComponentActions
  import opened Scheduler
  import opened SchedulerSafety
  import opened SchedulerLiveness
  import opened SchedulerDeterminism
  import opened SchedulerFineGrain
  import opened DiffSpec
  import opened Convergence
  import opened PassOutcome

  /** Work left between the consumers there are and the desired ones: finishing the last detachment may call for a creation. */
  function ConsumersWork(a: set<Key>, b: set<Key>): nat {
    2 * |a - b| + |b - a| + if a == {} && b != {} then 1 else 0
  }

  /** Work left between an entry and the desired entry. */
  function Work(v: Option<Instance>, w: Option<Instance>): nat {
    ConsumersWork(Consumers(v), Consumers(w)) + if Outdated(v, w) then 1 else 0
  }

  /** What the actions of a plan know of the desired entry, however often the entry has changed since. */
  predicate Aims(w: Option<Instance>, k: Key, a: Action) {
    a.key == k &&
    match a
    case Detach(_, d) => d !in Consumers(w)
    case Delete(_) => Consumers(w) == {}
    case Create(_) => Consumers(w) != {}
    case Update(_) => true
    case Attach(_, d, _) => d in Consumers(w)
  }

  lemma RequiredAims(prev: StateMap, next: StateMap, k: Key, a: Action)
    requires RequiredAction(prev, next, k, a)
    ensures Aims(Lookup(next, k), k, a)
  {
  }

  /** No action ever adds work. */
  lemma EffectKeepsWork(desired: StateMap, k: Key, a: Action, luck: Luck, v: Option<Instance>)
    requires Aims(Lookup(desired, k), k, a)
    ensures Work(Effect(desired, a, luck, v).0, Lookup(desired, k)) <= Work(v, Lookup(desired, k))
  {
    var w, v' := Lookup(desired, k), Effect(desired, a, luck, v).0;
    if v' != v {
      match a
      case Detach(_, d) => DetachWork(v, w, v', d);
      case Attach(_, d, _) => AttachWork(v, w, v', d);
      case Create(_) =>
        assert Consumers(v') - Consumers(w) == {} && Consumers(w) - Consumers(v') == {};
      case Delete(_) =>
        assert Consumers(v') - Consumers(w) == {} && Consumers(w) - Consumers(v') == {};
      case Update(_) =>
        assert Consumers(v') == Consumers(v);
    }
  }

  lemma FewerWithout(a: set<Key>, d: Key)
    ensures |a - {d}| == |a| - if d in a then 1 else 0
  {
  }

  lemma DetachSets(a: set<Key>, b: set<Key>, d: Key)
    requires d !in b
    ensures ConsumersWork(a - {d}, b) <= ConsumersWork(a, b) - if d in a then 1 else 0
  {
    assert (a - {d}) - b == (a - b) - {d} && b - (a - {d}) == b - a;
    FewerWithout(a - b, d);
    if d !in a {
      assert a - {d} == a;
    }
  }

  lemma AttachSets(a: set<Key>, b: set<Key>, d: Key)
    requires d in b
    ensures ConsumersWork(a + {d}, b) <= ConsumersWork(a, b) - if d in a then 0 else 1
  {
    assert (a + {d}) - b == a - b && b - (a + {d}) == (b - a) - {d};
    FewerWithout(b - a, d);
    if d in a {
      assert a + {d} == a;
    }
  }

  lemma DetachWork(v: Option<Instance>, w: Option<Instance>, v': Option<Instance>, d: Key)
    requires v.Some? && v' == Some(v.value.(dependencyKeys := v.value.dependencyKeys - {d})) && d !in Consumers(w)
    ensures Work(v', w) <= Work(v, w) && (d in Consumers(v) ==> Work(v', w) < Work(v, w))
  {
    assert Consumers(v') == Consumers(v) - {d};
    DetachSets(Consumers(v), Consumers(w), d);
    assert Outdated(v', w) ==> Outdated(v, w);
  }

  /** An instance without consumers that gets its first one may turn out to be outdated, which takes no more than the creation saved. */
  lemma AttachWork(v: Option<Instance>, w: Option<Instance>, v': Option<Instance>, d: Key)
    requires v.Some? && v'.Some? && v'.value.dependencyKeys.Keys == v.value.dependencyKeys.Keys + {d} && d in Consumers(w)
    requires v'.value.isCode == v.value.isCode && v'.value.codeParams == v.value.codeParams
    ensures Work(v', w) <= Work(v, w) && (d !in Consumers(v) ==> Work(v', w) < Work(v, w))
  {
    AttachSets(Consumers(v), Consumers(w), d);
    if Consumers(v) == {} {
      FirstAttached(Consumers(w), d);
      assert Consumers(v') == {d};
    } else {
      assert Outdated(v', w) ==> Outdated(v, w);
    }
  }

  lemma FirstAttached(b: set<Key>, d: Key)
    requires d in b
    ensures ConsumersWork({d}, b) == ConsumersWork({}, b) - 2
  {
  }

  /** An action that the node owes to the comparison of its own entries, other than an update to nil parameters. */
  predicate Effective(v: Option<Instance>, w: Option<Instance>, k: Key, a: Action) {
    OwnAction(v, w, k, a) && !(a.Update? && NeverUpdated(v, w))
  }

  /** Such an action lowers the work when it succeeds on the entry itself. */
  lemma OwnActionLowersWork(desired: StateMap, k: Key, a: Action, luck: Luck, v: Option<Instance>)
    requires Effective(v, Lookup(desired, k), k, a) && !a.Delete?
    requires Effect(desired, a, luck, v).1
    ensures Work(Effect(desired, a, luck, v).0, Lookup(desired, k)) < Work(v, Lookup(desired, k))
  {
    var w, v' := Lookup(desired, k), Effect(desired, a, luck, v).0;
    match a
    case Detach(_, d) => DetachWork(v, w, v', d);
    case Attach(_, d, _) => AttachWork(v, w, v', d);
    case Create(_) =>
      assert Consumers(v') - Consumers(w) == {} && Consumers(w) - Consumers(v') == {};
    case Update(_) =>
      assert Consumers(v') == Consumers(v);
  }

  // ---- One node in one pass.

  ghost predicate AllAim(w: Option<Instance>, k: Key, actions: seq<Action>) {
    forall i :: 0 <= i < |actions| ==> Aims(w, k, actions[i])
  }

  lemma NodeAims(prev: StateMap, next: StateMap, k: Key, actions: seq<Action>)
    requires NodeOf(prev, next, k, actions)
    ensures AllAim(Lookup(next, k), k, actions)
  {
    forall i | 0 <= i < |actions| ensures Aims(Lookup(next, k), k, actions[i]) {
      assert actions[i] in actions;
      RequiredAims(prev, next, k, actions[i]);
    }
  }

  /** From one entry of a node to the next, an action has had its effect or nothing has changed. */
  ghost predicate Follows(next: StateMap, a: Action, v: Option<Instance>, v': Option<Instance>) {
    v' == v || exists luck :: v' == Effect(next, a, luck, v).0
  }

  lemma FollowsKeepsWork(next: StateMap, k: Key, a: Action, v: Option<Instance>, v': Option<Instance>)
    requires Aims(Lookup(next, k), k, a) && Follows(next, a, v, v')
    ensures Work(v', Lookup(next, k)) <= Work(v, Lookup(next, k))
  {
    if v' != v {
      var luck :| v' == Effect(next, a, luck, v).0;
      EffectKeepsWork(next, k, a, luck, v);
    }
  }

  lemma StepFollows(next: StateMap, plan: PlanView, luck: ActionId -> Luck, c: Config<Instance>, k: Key, v0: Option<Instance>, i: nat)
    requires c.exec == CloudExec(plan, next, luck) && k in plan.actions && i < |plan.actions[k]|
    ensures Follows(next, plan.actions[k][i], Alone(c, k, i, v0).0, Alone(c, k, i + 1, v0).0)
  {
  }

  /** Work left for a node after n of its actions. */
  ghost function WorkAfter(c: Config<Instance>, k: Key, v0: Option<Instance>, w: Option<Instance>): nat -> nat {
    (n: nat) => Work(Alone(c, k, n, v0).0, w)
  }

  ghost predicate Drops(f: nat -> nat, n: nat) {
    f(n + 1) <= f(n)
  }

  lemma {:induction false} Descends(f: nat -> nat, i: nat, j: nat)
    requires i <= j && forall n: nat :: i <= n < j ==> Drops(f, n)
    ensures f(j) <= f(i)
  {
    if i < j {
      Descends(f, i, j - 1);
      assert Drops(f, j - 1);
    }
  }

  lemma StepKeepsWork(next: StateMap, plan: PlanView, luck: ActionId -> Luck, c: Config<Instance>, k: Key, v0: Option<Instance>, n: nat)
    requires c.exec == CloudExec(plan, next, luck) && k in plan.actions && n < |plan.actions[k]|
    requires Aims(Lookup(next, k), k, plan.actions[k][n])
    ensures Drops(WorkAfter(c, k, v0, Lookup(next, k)), n)
  {
    StepFollows(next, plan, luck, c, k, v0, n);
    FollowsKeepsWork(next, k, plan.actions[k][n], Alone(c, k, n, v0).0, Alone(c, k, n + 1, v0).0);
  }

  lemma NodeKeepsWork(next: StateMap, plan: PlanView, luck: ActionId -> Luck,
                      c: Config<Instance>, k: Key, v0: Option<Instance>, i: nat, j: nat)
    requires c.exec == CloudExec(plan, next, luck) && k in plan.actions && AllAim(Lookup(next, k), k, plan.actions[k])
    requires i <= j <= |plan.actions[k]|
    ensures Work(Alone(c, k, j, v0).0, Lookup(next, k)) <= Work(Alone(c, k, i, v0).0, Lookup(next, k))
  {
    var f := WorkAfter(c, k, v0, Lookup(next, k));
    forall n: nat | i <= n < j ensures Drops(f, n) {
      StepKeepsWork(next, plan, luck, c, k, v0, n);
    }
    Descends(f, i, j);
  }

  /** The deletion comes after a detachment. */
  lemma DeletionAfterDetachment(prev: StateMap, next: StateMap, k: Key, actions: seq<Action>, i: nat)
    requires NodeOf(prev, next, k, actions) && i < |actions| && actions[i].Delete?
    ensures exists j :: 0 <= j < i && actions[j].Detach?
  {
    assert actions[i] in actions;
    assert RequiredAction(prev, next, k, actions[i]);
    var d :| d in Consumers(Lookup(prev, k));
    assert RequiredAction(prev, next, k, Detach(k, d));
    var j :| 0 <= j < |actions| && actions[j] == Detach(k, d);
  }

  /** A required action that is not effective is an update. */
  lemma IneffectiveIsUpdate(prev: StateMap, next: StateMap, k: Key, a: Action)
    requires RequiredAction(prev, next, k, a) && !Effective(Lookup(prev, k), Lookup(next, k), k, a)
    ensures a == Update(k)
  {
  }

  /** A node on which an effective action succeeds is left with less work. */
  lemma NodeLowersWork(prev: StateMap, next: StateMap, plan: PlanView, luck: ActionId -> Luck, c: Config<Instance>, k: Key, i: nat)
    requires c.exec == CloudExec(plan, next, luck) && k in plan.actions && NodeOf(prev, next, k, plan.actions[k])
    requires i < |plan.actions[k]| && !Alone(c, k, i + 1, Lookup(prev, k)).1
    requires Effective(Lookup(prev, k), Lookup(next, k), k, plan.actions[k][i])
    ensures Work(Alone(c, k, |plan.actions[k]|, Lookup(prev, k)).0, Lookup(next, k)) < Work(Lookup(prev, k), Lookup(next, k))
  {
    var v, actions := Lookup(prev, k), plan.actions[k];
    if Alone(c, k, 1, v).1 {
      ErrorStays(c, k, 1, i + 1, v);
    }
    NodeAims(prev, next, k, actions);
    if Effective(v, Lookup(next, k), k, actions[0]) {
      FirstLowersWork(prev, next, plan, luck, c, k);
    } else {
      if Alone(c, k, 2, v).1 {
        ErrorStays(c, k, 2, i + 1, v);
      }
      SecondLowersWork(prev, next, plan, luck, c, k);
    }
  }

  lemma FirstLowersWork(prev: StateMap, next: StateMap, plan: PlanView, luck: ActionId -> Luck, c: Config<Instance>, k: Key)
    requires c.exec == CloudExec(plan, next, luck) && k in plan.actions && NodeOf(prev, next, k, plan.actions[k])
    requires plan.actions[k] != [] && !Alone(c, k, 1, Lookup(prev, k)).1
    requires Effective(Lookup(prev, k), Lookup(next, k), k, plan.actions[k][0])
    ensures Work(Alone(c, k, |plan.actions[k]|, Lookup(prev, k)).0, Lookup(next, k)) < Work(Lookup(prev, k), Lookup(next, k))
  {
    var v, actions := Lookup(prev, k), plan.actions[k];
    if actions[0].Delete? {
      DeletionAfterDetachment(prev, next, k, actions, 0);
    }
    AloneNext(c, k, 0, v);
    CloudExecAt(plan, next, luck, k, 0, v);
    OwnActionLowersWork(next, k, actions[0], luck(ActionId(k, 0)), v);
    NodeAims(prev, next, k, actions);
    NodeKeepsWork(next, plan, luck, c, k, v, 1, |actions|);
  }

  /** When the first action is an update without effect, the second one is not. */
  lemma SecondLowersWork(prev: StateMap, next: StateMap, plan: PlanView, luck: ActionId -> Luck, c: Config<Instance>, k: Key)
    requires c.exec == CloudExec(plan, next, luck) && k in plan.actions && NodeOf(prev, next, k, plan.actions[k])
    requires |plan.actions[k]| > 1 && !Alone(c, k, 1, Lookup(prev, k)).1 && !Alone(c, k, 2, Lookup(prev, k)).1
    requires !Effective(Lookup(prev, k), Lookup(next, k), k, plan.actions[k][0])
    ensures Work(Alone(c, k, |plan.actions[k]|, Lookup(prev, k)).0, Lookup(next, k)) < Work(Lookup(prev, k), Lookup(next, k))
  {
    var v, w, actions := Lookup(prev, k), Lookup(next, k), plan.actions[k];
    SecondIsOwn(prev, next, k, actions);
    var v1 := Alone(c, k, 1, v).0;
    AloneNext(c, k, 0, v);
    CloudExecAt(plan, next, luck, k, 0, v);
    UpdateKeepsConsumers(next, k, luck(ActionId(k, 0)), v);
    AloneNext(c, k, 1, v);
    CloudExecAt(plan, next, luck, k, 1, v1);
    SameConsumersOwn(v, v1, w, k, actions[1]);
    OwnActionLowersWork(next, k, actions[1], luck(ActionId(k, 1)), v1);
    NodeAims(prev, next, k, actions);
    NodeKeepsWork(next, plan, luck, c, k, v, 0, 1);
    NodeKeepsWork(next, plan, luck, c, k, v, 2, |actions|);
  }

  lemma SecondIsOwn(prev: StateMap, next: StateMap, k: Key, actions: seq<Action>)
    requires NodeOf(prev, next, k, actions) && |actions| > 1 && !Effective(Lookup(prev, k), Lookup(next, k), k, actions[0])
    ensures actions[0] == Update(k)
    ensures OwnAction(Lookup(prev, k), Lookup(next, k), k, actions[1]) && !actions[1].Update? && !actions[1].Delete?
  {
    assert actions[0] in actions && actions[1] in actions;
    IneffectiveIsUpdate(prev, next, k, actions[0]);
    assert GetName(actions[0]) != GetName(actions[1]);
    assert RequiredAction(prev, next, k, actions[1]) && actions[1] != Update(k);
    if actions[1].Delete? {
      DeletionAfterDetachment(prev, next, k, actions, 1);
    }
  }

  lemma UpdateKeepsConsumers(next: StateMap, k: Key, luck: Luck, v: Option<Instance>)
    ensures Consumers(Effect(next, Update(k), luck, v).0) == Consumers(v)
  {
  }

  lemma SameConsumersOwn(v: Option<Instance>, v': Option<Instance>, w: Option<Instance>, k: Key, a: Action)
    requires OwnAction(v, w, k, a) && !a.Update? && Consumers(v') == Consumers(v)
    ensures Effective(v', w, k, a)
  {
  }

  /** Actions without effect leave the work as it was. */
  lemma IneffectiveKeepsWork(prev: StateMap, next: StateMap, k: Key, actions: seq<Action>, j: nat, v: Option<Instance>)
    requires NodeOf(prev, next, k, actions) && j <= |actions| && EntryForm(Lookup(prev, k), Lookup(next, k), k, actions[..j], v)
    requires forall x :: x in actions[..j] ==> !Effective(Lookup(prev, k), Lookup(next, k), k, x)
    ensures Work(v, Lookup(next, k)) == Work(Lookup(prev, k), Lookup(next, k))
  {
    var done := actions[..j];
    forall x | x in done ensures x == Update(k) {
      assert x in actions;
      IneffectiveIsUpdate(prev, next, k, x);
    }
    assert Detached(done) == {} && Attached(done) == {};
    if done != [] {
      assert done[0] in done;
      UpdatedWork(Lookup(prev, k), Lookup(next, k), k, done, v);
    }
  }

  lemma UpdatedWork(v0: Option<Instance>, w: Option<Instance>, k: Key, done: seq<Action>, v: Option<Instance>)
    requires EntryForm(v0, w, k, done, v) && done != [] && (forall x :: x in done ==> x == Update(k))
    requires Detached(done) == {} && Attached(done) == {} && !Effective(v0, w, k, Update(k))
    ensures Work(v, w) == Work(v0, w)
  {
    assert Consumers(v) == Consumers(v0);
    assert done[0] in done;
  }

  /** What the first actions of a node make of its entry is not outdated unless the entry was. */
  lemma FormNotOutdated(prev: StateMap, next: StateMap, k: Key, actions: seq<Action>, j: nat, v: Option<Instance>)
    requires NodeOf(prev, next, k, actions) && j <= |actions| && EntryForm(Lookup(prev, k), Lookup(next, k), k, actions[..j], v)
    ensures Outdated(v, Lookup(next, k)) ==> Outdated(Lookup(prev, k), Lookup(next, k))
  {
    var v0, w, done := Lookup(prev, k), Lookup(next, k), actions[..j];
    forall d | d in Attached(done) && Consumers(v0) == {} ensures Create(k) in done {
      var a :| a in done && a.Attach? && a.dep == d;
      var i :| 0 <= i < j && actions[i] == a;
      CreatedBefore(prev, next, k, actions, i, j);
    }
    assert Consumers(v0) == {} && Create(k) !in done ==> Attached(done) == {};
  }

  /** An attachment to an instance without consumers comes after its creation. */
  lemma CreatedBefore(prev: StateMap, next: StateMap, k: Key, actions: seq<Action>, i: nat, j: nat)
    requires NodeOf(prev, next, k, actions) && i < j <= |actions| && actions[i].Attach? && Consumers(Lookup(prev, k)) == {}
    ensures Create(k) in actions[..j]
  {
    DoneBefore(prev, next, k, actions, i);
    var x :| 0 <= x < i && actions[..i][x] == Create(k);
    assert actions[..j][x] == Create(k);
  }

  // ---- All nodes in one pass.

  /** Each service instance of the desired state has edges to its component instances. */
  ghost predicate ServicesWaitForComponents(next: StateMap) {
    forall k :: k in next && ParentKey(next[k]) != k ==>
      ParentKey(next[k]) in next && k in next[ParentKey(next[k])].edgesOut
  }

  // ---- The sum over all instances.

  ghost function Pick(ks: set<Key>): Key
    requires ks != {}
    ensures Pick(ks) in ks
  {
    var k :| k in ks; k
  }

  ghost function TotalWork(ks: set<Key>, actual: StateMap, desired: StateMap): nat {
    if ks == {} then 0
    else var k := Pick(ks); Work(Lookup(actual, k), Lookup(desired, k)) + TotalWork(ks - {k}, actual, desired)
  }

  lemma {:induction false} TotalWorkKept(ks: set<Key>, a: StateMap, b: StateMap, desired: StateMap)
    requires forall k :: k in ks ==> Work(Lookup(b, k), Lookup(desired, k)) <= Work(Lookup(a, k), Lookup(desired, k))
    ensures TotalWork(ks, b, desired) <= TotalWork(ks, a, desired)
  {
    if ks != {} {
      TotalWorkKept(ks - {Pick(ks)}, a, b, desired);
    }
  }

  lemma {:induction false} TotalWorkLowered(ks: set<Key>, a: StateMap, b: StateMap, desired: StateMap, x: Key)
    requires forall k :: k in ks ==> Work(Lookup(b, k), Lookup(desired, k)) <= Work(Lookup(a, k), Lookup(desired, k))
    requires x in ks && Work(Lookup(b, x), Lookup(desired, x)) < Work(Lookup(a, x), Lookup(desired, x))
    ensures TotalWork(ks, b, desired) < TotalWork(ks, a, desired)
  {
    var k := Pick(ks);
    if k == x {
      TotalWorkKept(ks - {k}, a, b, desired);
    } else {
      TotalWorkLowered(ks - {k}, a, b, desired, x);
    }
  }

  /** An effective action of some node has succeeded in the pass. */
  ghost predicate EffectiveSuccess(desired: StateMap, a: StateMap, plan: PlanView, s: State<Instance>) {
    exists k, i: nat :: k in plan.actions && i < |plan.actions[k]| && Did(s, k, i)
                        && Effective(Lookup(a, k), Lookup(desired, k), k, plan.actions[k][i])
  }

  lemma PassKeepsWork(desired: StateMap, a: StateMap, b: StateMap, plan: PlanView, luck: ActionId -> Luck, atomicMark: bool,
                      s0: State<Instance>, moves: seq<Move>, s: State<Instance>, k: Key)
    requires PassBy(desired, a, b, plan, luck, atomicMark, s0, moves, s)
    ensures Work(Lookup(b, k), Lookup(desired, k)) <= Work(Lookup(a, k), Lookup(desired, k))
  {
    PassEntry(desired, a, b, plan, luck, atomicMark, s0, moves, s, k);
    if k in plan.actions && Lookup(b, k) != Lookup(a, k) {
      assert ActionsOf(plan, k) == plan.actions[k];
      NodeAims(a, desired, k, plan.actions[k]);
      NodeKeepsWork(desired, plan, luck, CloudConfig(plan, desired, luck, atomicMark), k, Lookup(a, k), 0, |plan.actions[k]|);
    }
  }

  lemma IneffectivePass(desired: StateMap, a: StateMap, b: StateMap, plan: PlanView, luck: ActionId -> Luck, atomicMark: bool,
                        s0: State<Instance>, moves: seq<Move>, s: State<Instance>, k: Key)
    requires PassBy(desired, a, b, plan, luck, atomicMark, s0, moves, s) && !EffectiveSuccess(desired, a, plan, s)
    ensures Work(Lookup(b, k), Lookup(desired, k)) == Work(Lookup(a, k), Lookup(desired, k))
  {
    PassEntry(desired, a, b, plan, luck, atomicMark, s0, moves, s, k);
    if k in plan.actions {
      var j := PassForm(desired, a, b, plan, luck, atomicMark, s0, moves, s, k);
      assert NodeOf(a, desired, k, ActionsOf(plan, k));
      forall x | x in plan.actions[k][..j] ensures !Effective(Lookup(a, k), Lookup(desired, k), k, x) {
        var i :| 0 <= i < j && plan.actions[k][i] == x;
        assert Did(s, k, i);
      }
      IneffectiveKeepsWork(a, desired, k, plan.actions[k], j, Lookup(b, k));
    }
  }

  /**
   A pass never adds work, whatever fails and whenever failures are marked, and it lowers the work exactly if
   an effective action succeeds in it.
   */
  lemma PassLowersWork(desired: StateMap, a: StateMap, b: StateMap, plan: PlanView, luck: ActionId -> Luck, atomicMark: bool,
                       s0: State<Instance>, moves: seq<Move>, s: State<Instance>, ks: set<Key>)
    requires PassBy(desired, a, b, plan, luck, atomicMark, s0, moves, s) && a.Keys + desired.Keys <= ks
    ensures TotalWork(ks, b, desired) <= TotalWork(ks, a, desired)
    ensures TotalWork(ks, b, desired) < TotalWork(ks, a, desired) <==> EffectiveSuccess(desired, a, plan, s)
  {
    forall k ensures Work(Lookup(b, k), Lookup(desired, k)) <= Work(Lookup(a, k), Lookup(desired, k)) {
      PassKeepsWork(desired, a, b, plan, luck, atomicMark, s0, moves, s, k);
    }
    TotalWorkKept(ks, a, b, desired);
    if EffectiveSuccess(desired, a, plan, s) {
      var k := SuccessLowersWork(desired, a, b, plan, luck, atomicMark, s0, moves, s);
      TotalWorkLowered(ks, a, b, desired, k);
    } else {
      forall k ensures Work(Lookup(a, k), Lookup(desired, k)) <= Work(Lookup(b, k), Lookup(desired, k)) {
        IneffectivePass(desired, a, b, plan, luck, atomicMark, s0, moves, s, k);
      }
      TotalWorkKept(ks, b, a, desired);
    }
  }

  lemma SuccessLowersWork(desired: StateMap, a: StateMap, b: StateMap, plan: PlanView, luck: ActionId -> Luck, atomicMark: bool,
                          s0: State<Instance>, moves: seq<Move>, s: State<Instance>) returns (k: Key)
    requires PassBy(desired, a, b, plan, luck, atomicMark, s0, moves, s) && EffectiveSuccess(desired, a, plan, s)
    ensures k in a.Keys + desired.Keys
    ensures Work(Lookup(b, k), Lookup(desired, k)) < Work(Lookup(a, k), Lookup(desired, k))
  {
    var i: nat;
    k, i :| k in plan.actions && i < |plan.actions[k]| && Did(s, k, i)
            && Effective(Lookup(a, k), Lookup(desired, k), k, plan.actions[k][i]);
    DoneIsRun(desired, a, b, plan, luck, atomicMark, s0, moves, s, k, i);
    assert ActionsOf(plan, k) == plan.actions[k];
    NodeLowersWork(a, desired, plan, luck, CloudConfig(plan, desired, luck, atomicMark), k, i);
  }

  /** No instance waits for an update with nil parameters. */
  ghost predicate NoNilUpdates(actual: StateMap, desired: StateMap) {
    forall k :: !NeverUpdated(Lookup(actual, k), Lookup(desired, k))
  }

  /** A pass makes no instance wait for such an update, and adds no others than desired instances. */
  lemma PassKeepsNoNil(desired: StateMap, a: StateMap, b: StateMap, plan: PlanView, luck: ActionId -> Luck, atomicMark: bool,
                       s0: State<Instance>, moves: seq<Move>, s: State<Instance>)
    requires PassBy(desired, a, b, plan, luck, atomicMark, s0, moves, s)
    ensures NoNilUpdates(a, desired) ==> NoNilUpdates(b, desired)
    ensures b.Keys <= a.Keys + desired.Keys
  {
    forall k
      ensures NeverUpdated(Lookup(b, k), Lookup(desired, k)) ==> NeverUpdated(Lookup(a, k), Lookup(desired, k))
      ensures k in b ==> k in a.Keys + desired.Keys
    {
      PassEntry(desired, a, b, plan, luck, atomicMark, s0, moves, s, k);
      if k in plan.actions {
        var j := PassForm(desired, a, b, plan, luck, atomicMark, s0, moves, s, k);
        assert NodeOf(a, desired, k, ActionsOf(plan, k));
        FormNotOutdated(a, desired, k, plan.actions[k], j, Lookup(b, k));
        FormKnown(a, desired, k, plan.actions[k], j, Lookup(b, k));
      }
    }
  }

  lemma FormKnown(prev: StateMap, next: StateMap, k: Key, actions: seq<Action>, j: nat, v: Option<Instance>)
    requires NodeOf(prev, next, k, actions) && j <= |actions| && EntryForm(Lookup(prev, k), Lookup(next, k), k, actions[..j], v)
    ensures v.Some? ==> k in prev.Keys + next.Keys
  {
  }

  // ---- Any number of passes.

  ghost predicate ProductivePass(desired: StateMap, a: StateMap, b: StateMap) {
    exists plan, luck, atomicMark, s0: State<Instance>, moves, s: State<Instance> ::
      PassBy(desired, a, b, plan, luck, atomicMark, s0, moves, s) && EffectiveSuccess(desired, a, plan, s)
  }

  /** The actual states met by an enforcer each of whose passes has an effective action that succeeds. */
  ghost predicate ProductiveRun(desired: StateMap, states: seq<StateMap>) {
    states != [] && (|states| == 1 || (ProductivePass(desired, states[0], states[1]) && ProductiveRun(desired, states[1..])))
  }

  /**
   Retries end: whatever fails, and whenever failures are marked, the number of passes in a row in which an
   effective action succeeds is bounded by the work there was at the beginning.
   */
  lemma {:induction false} RetriesEnd(desired: StateMap, states: seq<StateMap>, ks: set<Key>)
    requires ProductiveRun(desired, states) && states[0].Keys + desired.Keys <= ks
    ensures |states| - 1 <= TotalWork(ks, states[0], desired)
    decreases |states|
  {
    if |states| > 1 {
      var plan, luck, atomicMark, s0: State<Instance>, moves, s: State<Instance> :|
        PassBy(desired, states[0], states[1], plan, luck, atomicMark, s0, moves, s) && EffectiveSuccess(desired, states[0], plan, s);
      PassLowersWork(desired, states[0], states[1], plan, luck, atomicMark, s0, moves, s, ks);
      PassKeepsNoNil(desired, states[0], states[1], plan, luck, atomicMark, s0, moves, s);
      RetriesEnd(desired, states[1..], ks);
    }
  }

  // ---- When a success is enough.

  /** A pass after which the enforcer starts over at once. */
  ghost predicate RetriggeringPass(desired: StateMap, a: StateMap, b: StateMap, atomicMark: bool) {
    exists plan, luck, s0: State<Instance>, moves, s: State<Instance> ::
      PassBy(desired, a, b, plan, luck, atomicMark, s0, moves, s) && s.success > 0
  }

  ghost predicate RetriggeringRun(desired: StateMap, states: seq<StateMap>, atomicMark: bool) {
    states != [] && (|states| == 1
      || (RetriggeringPass(desired, states[0], states[1], atomicMark) && RetriggeringRun(desired, states[1..], atomicMark)))
  }

  /** In a finished run with a success, some node got its first action done. */
  lemma SuccessStarts<V>(c: Config<V>, w0: map<Key, V>, s: State<V>) returns (k: Key)
    requires Foretold(c, w0, s) && s.success > 0
    ensures k in c.graph.sizes && c.graph.sizes[k] > 0 && !Blocked(c, w0, k) && !Alone(c, k, 1, Lookup(w0, k)).1
    ensures Lookup(s.outcomes, ActionId(k, 0)) == Some(Succeeded)
  {
    assert ActionsWith(s.outcomes, Succeeded) != {};
    var a :| a in s.outcomes && s.outcomes[a] == Succeeded;
    assert a in c.graph.AllActions();
    k := a.node;
    AloneNext(c, k, a.index, Lookup(w0, k));
    if Alone(c, k, 1, Lookup(w0, k)).1 {
      ErrorStays(c, k, 1, a.index + 1, Lookup(w0, k));
    }
    assert ActionId(k, 0) in c.graph.AllActions();
  }

  /**
   With failure marks in time and no update to nil parameters, a pass in which any action succeeds has an
   effective one that does: the update of a service waits for that of the component it is for.
   */
  lemma SuccessIsEffective(desired: StateMap, a: StateMap, b: StateMap, plan: PlanView, luck: ActionId -> Luck, atomicMark: bool,
                           s0: State<Instance>, moves: seq<Move>, s: State<Instance>)
    requires PassBy(desired, a, b, plan, luck, atomicMark, s0, moves, s) && s.success > 0
    requires MarksInTime(CloudConfig(plan, desired, luck, atomicMark), a)
    requires ServicesWaitForComponents(desired) && NoNilUpdates(a, desired)
    ensures EffectiveSuccess(desired, a, plan, s)
  {
    var c := CloudConfig(plan, desired, luck, atomicMark);
    ReturnedAsForetold(c, s0, moves, s);
    var k := SuccessStarts(c, a, s);
    var x := plan.actions[k][0];
    assert NodeOf(a, desired, k, ActionsOf(plan, k));
    assert x in plan.actions[k] && RequiredAction(a, desired, k, x);
    if Effective(Lookup(a, k), Lookup(desired, k), k, x) {
      assert Did(s, k, 0);
    } else {
      var k' :| k' in desired && Outdated(Lookup(a, k'), Lookup(desired, k')) && ParentKey(desired[k']) == k;
      var i := ComponentUpdated(desired, a, plan, c, s, k, k');
    }
  }

  lemma ComponentUpdated(desired: StateMap, a: StateMap, plan: PlanView, c: Config<Instance>, s: State<Instance>, k: Key, k': Key)
    returns (i: nat)
    requires IsDiff(a, desired, plan) && c.graph == GraphOf(plan) && Foretold(c, a, s) && !Blocked(c, a, k)
    requires ServicesWaitForComponents(desired) && !NeverUpdated(Lookup(a, k'), Lookup(desired, k'))
    requires k' in desired && Outdated(Lookup(a, k'), Lookup(desired, k')) && ParentKey(desired[k']) == k && k' != k
    ensures k' in plan.actions && i < |plan.actions[k']| && Did(s, k', i)
    ensures Effective(Lookup(a, k'), Lookup(desired, k'), k', plan.actions[k'][i])
  {
    assert DesiredEdge(desired, Edge(k, k'));
    var e :| 0 <= e < |plan.edges| && plan.edges[e] == Edge(k, k');
    if Fails(c, a, k') {
      BlockedByEdge(c, a, e);
    }
    assert NodeOf(a, desired, k', ActionsOf(plan, k'));
    assert RequiredAction(a, desired, k', Update(k'));
    i :| 0 <= i < |plan.actions[k']| && plan.actions[k'][i] == Update(k');
    AloneSucceeds(c, a, k', i);
    assert ActionId(k', i) in c.graph.AllActions();
    assert s.outcomes[ActionId(k', i)] == OutcomeOf(c, a, ActionId(k', i));
  }

  /** So with the mark part of the decrement, the enforcer starts over only so often while any action succeeds. */
  lemma {:induction false} InTimeRetriesEnd(desired: StateMap, states: seq<StateMap>, ks: set<Key>)
    requires RetriggeringRun(desired, states, true) && ServicesWaitForComponents(desired)
    requires NoNilUpdates(states[0], desired) && states[0].Keys + desired.Keys <= ks
    ensures |states| - 1 <= TotalWork(ks, states[0], desired)
    decreases |states|
  {
    if |states| > 1 {
      var plan, luck, s0: State<Instance>, moves, s: State<Instance> :|
        PassBy(desired, states[0], states[1], plan, luck, true, s0, moves, s) && s.success > 0;
      SuccessIsEffective(desired, states[0], states[1], plan, luck, true, s0, moves, s);
      PassLowersWork(desired, states[0], states[1], plan, luck, true, s0, moves, s, ks);
      PassKeepsNoNil(desired, states[0], states[1], plan, luck, true, s0, moves, s);
      InTimeRetriesEnd(desired, states[1..], ks);
    }
  }

  /**
   With a pending update to nil parameters they do not end: after a pass in which nothing fails, the instance
   with the nil parameters is as outdated as before, and at least its update has counted as a success, so the
   enforcer starts over.
   */
  lemma NilUpdateRetriesForever(desired: StateMap, a: StateMap, plan: PlanView, luck: ActionId -> Luck, atomicMark: bool,
                                s0: State<Instance>, moves: seq<Move>, s: State<Instance>, k: Key)
    requires AllTouchedInUse(a, desired) && AllGood(luck)
    requires PassBy(desired, a, s.world, plan, luck, atomicMark, s0, moves, s)
    requires NeverUpdated(Lookup(a, k), Lookup(desired, k))
    ensures s.success > 0 && s.failed == 0
    ensures NeverUpdated(Lookup(s.world, k), Lookup(desired, k))
  {
    ApplyConverges(a, desired, plan, luck, atomicMark, s0, moves, s);
    assert RequiredAction(a, desired, k, Update(k));
    assert NodeOf(a, desired, k, ActionsOf(plan, k));
    assert Update(k) in plan.actions[k];
    assert ActionId(k, 0) in GraphOf(plan).AllActions();
  }

  // ---- Lucky passes after arbitrary failures.

  /** Among the nodes with something to do there is one of the lowest rank. */
  lemma {:induction false} LowestBusy(plan: PlanView, rank: map<Key, nat>, k: Key) returns (low: Key)
    requires Ranked(GraphOf(plan), rank) && k in plan.actions && plan.actions[k] != []
    ensures low in plan.actions && plan.actions[low] != []
    ensures forall x :: x in plan.actions && low in rank && x in rank && rank[x] < rank[low] ==> plan.actions[x] == []
    decreases rank[k]
  {
    if x :| x in plan.actions && plan.actions[x] != [] && x in rank && rank[x] < rank[k] {
      low := LowestBusy(plan, rank, x);
    } else {
      low := k;
    }
  }

  /** Nothing below such a node is outdated, so it is not touched for the sake of a component. */
  lemma LowestNotTouched(a: StateMap, desired: StateMap, plan: PlanView, rank: map<Key, nat>, k: Key)
    requires IsDiff(a, desired, plan) && Ranked(GraphOf(plan), rank) && k in plan.actions && ServicesWaitForComponents(desired)
    requires forall x :: x in plan.actions && k in rank && x in rank && rank[x] < rank[k] ==> plan.actions[x] == []
    ensures Touched(a, desired, k) ==> Outdated(Lookup(a, k), Lookup(desired, k))
  {
    if Touched(a, desired, k) {
      var c :| c in desired && Outdated(Lookup(a, c), Lookup(desired, c)) && ParentKey(desired[c]) == k;
      if c != k {
        assert DesiredEdge(desired, Edge(k, c));
        EdgeLowers(plan, rank, Edge(k, c));
        OutdatedBusy(a, desired, plan, c);
      }
    }
  }

  lemma EdgeLowers(plan: PlanView, rank: map<Key, nat>, edge: Edge)
    requires Ranked(GraphOf(plan), rank) && edge in plan.edges && edge.waiter in plan.actions && edge.needed in plan.actions
    ensures edge.waiter in rank && edge.needed in rank && rank[edge.needed] < rank[edge.waiter]
  {
    var e :| 0 <= e < |plan.edges| && plan.edges[e] == edge;
    assert GraphOf(plan).edges[e] == edge && edge.waiter in GraphOf(plan).sizes && edge.needed in GraphOf(plan).sizes;
  }

  lemma OutdatedBusy(a: StateMap, desired: StateMap, plan: PlanView, k: Key)
    requires IsDiff(a, desired, plan) && Outdated(Lookup(a, k), Lookup(desired, k))
    ensures k in plan.actions && plan.actions[k] != []
  {
    assert NodeOf(a, desired, k, ActionsOf(plan, k));
    assert RequiredAction(a, desired, k, Update(k));
  }

  /**
   Progress from any actual state, whatever failures have led to it: a pass with good luck and something to do
   has an effective action that succeeds, unless an update to nil parameters is pending.
   */
  lemma LuckyPassIsProductive(desired: StateMap, a: StateMap, b: StateMap, plan: PlanView, luck: ActionId -> Luck, atomicMark: bool,
                              s0: State<Instance>, moves: seq<Move>, s: State<Instance>)
    requires PassBy(desired, a, b, plan, luck, atomicMark, s0, moves, s) && AllGood(luck) && !NoActions(plan)
    requires ServicesWaitForComponents(desired) && NoNilUpdates(a, desired)
    ensures EffectiveSuccess(desired, a, plan, s)
  {
    var c := CloudConfig(plan, desired, luck, atomicMark);
    ReturnsOnlyIfAcyclic(c, s0, moves, s);
    var rank :| Ranked(GraphOf(plan), rank);
    var busy :| busy in plan.actions && plan.actions[busy] != [];
    var k := LowestBusy(plan, rank, busy);
    LowestNotTouched(a, desired, plan, rank, k);
    LowestRuns(desired, a, plan, luck, c, rank, k);
    var z := {k} + set x | x in plan.actions && x in rank && k in rank && rank[x] < rank[k];
    LowestQuiet(c, plan, a, rank, k, z);
    QuietSucceeds(c, s0, moves, s, z, k);
    FirstIsEffective(desired, a, plan, k);
    assert Did(s, k, 0);
  }

  lemma FirstIsEffective(desired: StateMap, a: StateMap, plan: PlanView, k: Key)
    requires IsDiff(a, desired, plan) && NoNilUpdates(a, desired) && k in plan.actions && plan.actions[k] != []
    requires Touched(a, desired, k) ==> Outdated(Lookup(a, k), Lookup(desired, k))
    ensures Effective(Lookup(a, k), Lookup(desired, k), k, plan.actions[k][0])
  {
    assert NodeOf(a, desired, k, ActionsOf(plan, k));
    var x := plan.actions[k][0];
    assert x in plan.actions[k] && RequiredAction(a, desired, k, x);
  }

  lemma LowestRuns(desired: StateMap, a: StateMap, plan: PlanView, luck: ActionId -> Luck, c: Config<Instance>, rank: map<Key, nat>, k: Key)
    requires IsDiff(a, desired, plan) && AllGood(luck) && c.graph == GraphOf(plan) && c.exec == CloudExec(plan, desired, luck)
    requires k in plan.actions && (Touched(a, desired, k) ==> Outdated(Lookup(a, k), Lookup(desired, k)))
    ensures !OwnFails(c, a, k)
  {
    assert NodeOf(a, desired, k, ActionsOf(plan, k));
    NodeRuns(a, desired, plan, c, luck, k, |plan.actions[k]|);
  }

  lemma LowestQuiet(c: Config<Instance>, plan: PlanView, a: StateMap, rank: map<Key, nat>, k: Key, z: set<Key>)
    requires c.graph == GraphOf(plan) && c.graph.Valid() && Ranked(c.graph, rank) && k in plan.actions && !OwnFails(c, a, k)
    requires forall x :: x in plan.actions && k in rank && x in rank && rank[x] < rank[k] ==> plan.actions[x] == []
    requires z == {k} + set x | x in plan.actions && x in rank && k in rank && rank[x] < rank[k]
    ensures Quiet(c, a, z)
  {
    assert k in c.graph.sizes;
    forall e: nat | e < |c.graph.edges| && c.graph.edges[e].waiter in z ensures c.graph.edges[e].needed in z {
      assert c.graph.edges[e].needed in c.graph.sizes && c.graph.edges[e].waiter in c.graph.sizes;
    }
  }

  /** Some pass, with any luck. */
  ghost predicate AnyPass(desired: StateMap, a: StateMap, b: StateMap) {
    exists plan, luck, atomicMark, s0: State<Instance>, moves, s: State<Instance> ::
      PassBy(desired, a, b, plan, luck, atomicMark, s0, moves, s)
  }

  ghost predicate LuckyPass(desired: StateMap, a: StateMap, b: StateMap) {
    exists plan, luck, atomicMark, s0: State<Instance>, moves, s: State<Instance> ::
      PassBy(desired, a, b, plan, luck, atomicMark, s0, moves, s) && AllGood(luck)
  }

  /** The actual states met in any number of passes. */
  ghost predicate Passes(desired: StateMap, states: seq<StateMap>) {
    states != [] && (|states| == 1 || (AnyPass(desired, states[0], states[1]) && Passes(desired, states[1..])))
  }

  /** How many of the passes have nothing but good luck. */
  ghost function LuckyPasses(desired: StateMap, states: seq<StateMap>): nat {
    if |states| <= 1 then 0
    else (if LuckyPass(desired, states[0], states[1]) then 1 else 0) + LuckyPasses(desired, states[1..])
  }

  lemma LuckyPassLowersWork(desired: StateMap, a: StateMap, b: StateMap, ks: set<Key>)
    requires LuckyPass(desired, a, b) && !StatesAgree(a, desired) && a.Keys + desired.Keys <= ks
    requires ServicesWaitForComponents(desired) && NoNilUpdates(a, desired)
    ensures TotalWork(ks, b, desired) < TotalWork(ks, a, desired)
  {
    var plan, luck, atomicMark, s0: State<Instance>, moves, s: State<Instance> :|
      PassBy(desired, a, b, plan, luck, atomicMark, s0, moves, s) && AllGood(luck);
    NoActionsIffAgree(a, desired, plan);
    LuckyPassIsProductive(desired, a, b, plan, luck, atomicMark, s0, moves, s);
    PassLowersWork(desired, a, b, plan, luck, atomicMark, s0, moves, s, ks);
  }

  /**
   Convergence after arbitrary failures: in any run of passes, however the others fail, once there have been
   more lucky passes than there was work at the beginning, the actual state has agreed with the desired one.
   */
  lemma {:induction false} LuckyPassesConverge(desired: StateMap, states: seq<StateMap>, ks: set<Key>)
    requires Passes(desired, states) && ServicesWaitForComponents(desired)
    requires NoNilUpdates(states[0], desired) && states[0].Keys + desired.Keys <= ks
    requires LuckyPasses(desired, states) > TotalWork(ks, states[0], desired)
    ensures exists x :: x in states && StatesAgree(x, desired)
    decreases |states|
  {
    if StatesAgree(states[0], desired) {
      assert states[0] in states;
    } else {
      var plan, luck, atomicMark, s0: State<Instance>, moves, s: State<Instance> :|
        PassBy(desired, states[0], states[1], plan, luck, atomicMark, s0, moves, s);
      PassLowersWork(desired, states[0], states[1], plan, luck, atomicMark, s0, moves, s, ks);
      PassKeepsNoNil(desired, states[0], states[1], plan, luck, atomicMark, s0, moves, s);
      if LuckyPass(desired, states[0], states[1]) {
        LuckyPassLowersWork(desired, states[0], states[1], ks);
      }
      LuckyPassesConverge(desired, states[1..], ks);
      var x :| x in states[1..] && StatesAgree(x, desired);
      assert x in states;
    }
  }

  /** And then it stays: a pass over states that agree has nothing to do. */
  lemma AgreementStays(desired: StateMap, a: StateMap, b: StateMap)
    requires AnyPass(desired, a, b) && StatesAgree(a, desired)
    ensures b == a
  {
    var plan, luck, atomicMark, s0: State<Instance>, moves, s: State<Instance> :|
      PassBy(desired, a, b, plan, luck, atomicMark, s0, moves, s);
    NoActionsIffAgree(a, desired, plan);
    forall k ensures Lookup(b, k) == Lookup(a, k) {
      PassEntry(desired, a, b, plan, luck, atomicMark, s0, moves, s, k);
      assert k in plan.actions ==> plan.actions[k] == [];
    }
    SameEntries(a, b);
  }

  lemma SameEntries(a: StateMap, b: StateMap)
    requires forall k :: Lookup(b, k) == Lookup(a, k)
    ensures a == b
  {
    forall k ensures (k in b <==> k in a) && (k in b ==> b[k] == a[k]) {
      assert Lookup(b, k) == Lookup(a, k);
    }
  }
}

/** The comparison of the actual state with the desired state, which fills a plan. */
module Diff {
  import opened Prelude
  import opened ComponentKey
  import opened Instances
  import opened ComponentActions
  import opened Scheduler
  import opened DiffSpec
  import opened ActionGraph

  /** Where buildActions has got to with its own node: detachments, then creation or deletion, then attachments. */
  predicate Within(a: Action, phase: nat) {
    match a
    case Detach(_, _) => true
    case Update(_) => true
    case Create(_) => phase >= 1
    case Delete(_) => phase >= 1
    case Attach(_, _, _) => phase >= 2
  }

  ghost predicate SoFar(prev: StateMap, next: StateMap, k: Key, actions: seq<Action>, phase: nat) {
    && DistinctNames(actions)
    && InOrder(actions) && (Touched(prev, next, k) || UpdateSoFar(actions, phase))
    && forall i :: 0 <= i < |actions| ==> RequiredAction(prev, next, k, actions[i]) && Within(actions[i], phase)
  }

  /** The node's own update has been added after the detachments. */
  ghost predicate UpdateSoFar(actions: seq<Action>, phase: nat) {
    UpdateInOrder(actions) && (phase == 0 ==> forall i :: 0 <= i < |actions| ==> !actions[i].Update?)
  }

  /** A required action may be added as long as its phase is not over. */
  predicate MayAdd(a: Action, phase: nat) {
    (a.Detach? ==> phase == 0) && (a.Create? ==> phase <= 1)
  }

  /** And an own update only between detachments and attachments. */
  ghost predicate UpdateFits(prev: StateMap, next: StateMap, k: Key, a: Action, phase: nat, phase': nat) {
    Touched(prev, next, k) || (a.Update? ==> phase <= 1 <= phase')
  }

  /** Required actions of one node with the same name are the same, attachment depth included. */
  lemma SameNameSame(prev: StateMap, next: StateMap, k: Key, a: Action, b: Action)
    requires RequiredAction(prev, next, k, a) && RequiredAction(prev, next, k, b) && GetName(a) == GetName(b)
    ensures a == b
  {
    NameIdentifies(a, b);
  }

  lemma AddRequired(prev: StateMap, next: StateMap, k: Key, actions: seq<Action>, a: Action, phase: nat, phase': nat)
    requires SoFar(prev, next, k, actions, phase) && RequiredAction(prev, next, k, a)
    requires MayAdd(a, phase) && Within(a, phase') && phase <= phase' && UpdateFits(prev, next, k, a, phase, phase')
    ensures SoFar(prev, next, k, WithAction(actions, a), phase')
    ensures a in WithAction(actions, a) && forall x :: x in actions ==> x in WithAction(actions, a)
  {
    var r := WithAction(actions, a);
    if r == actions {
      var i :| 0 <= i < |actions| && GetName(actions[i]) == GetName(a);
      SameNameSame(prev, next, k, actions[i], a);
    } else {
      assert r == actions + [a];
      AppendKeepsOrder(actions, a, phase);
      if !Touched(prev, next, k) {
        AppendKeepsUpdate(actions, a, phase, phase');
      }
      forall i, j | 0 <= i < j < |r| ensures GetName(r[i]) != GetName(r[j]) {
      }
    }
  }

  lemma AppendKeepsOrder(actions: seq<Action>, a: Action, phase: nat)
    requires InOrder(actions) && MayAdd(a, phase) && forall i :: 0 <= i < |actions| ==> Within(actions[i], phase)
    ensures InOrder(actions + [a])
  {
  }

  lemma AppendKeepsUpdate(actions: seq<Action>, a: Action, phase: nat, phase': nat)
    requires UpdateSoFar(actions, phase) && MayAdd(a, phase) && phase <= phase' && (a.Update? ==> phase <= 1 <= phase')
    requires forall i :: 0 <= i < |actions| ==> Within(actions[i], phase)
    ensures UpdateSoFar(actions + [a], phase')
  {
  }

  /** The comparison so far: the nodes of the keys in done have all they need, the others only updates. */
  ghost predicate Compared(prev: StateMap, next: StateMap, plan: PlanView, done: set<Key>) {
    && plan.edges == []
    && done <= plan.actions.Keys
    && (forall k :: SoFar(prev, next, k, ActionsOf(plan, k), if k in done then 2 else 0))
    && (forall k :: k !in done ==> OnlyUpdates(ActionsOf(plan, k)))
    && (forall k :: k in done ==> HasOwn(prev, next, k, ActionsOf(plan, k)))
    && (forall c :: c in done && TouchesParent(prev, next, c) ==> ParentUpdated(next, plan, c))
  }

  predicate OnlyUpdates(actions: seq<Action>) {
    forall i :: 0 <= i < |actions| ==> actions[i].Update?
  }

  ghost predicate HasOwn(prev: StateMap, next: StateMap, k: Key, actions: seq<Action>) {
    forall a :: OwnAction(Lookup(prev, k), Lookup(next, k), k, a) ==> a in actions
  }

  predicate TouchesParent(prev: StateMap, next: StateMap, c: Key) {
    c in next && Outdated(Lookup(prev, c), Lookup(next, c))
  }

  predicate ParentUpdated(next: StateMap, plan: PlanView, c: Key)
    requires c in next
  {
    Update(ParentKey(next[c])) in ActionsOf(plan, ParentKey(next[c]))
  }

  /** When every key has been handled, the nodes are those required. */
  lemma ComparedAll(prev: StateMap, next: StateMap, plan: PlanView, k: Key)
    requires Compared(prev, next, plan, prev.Keys + next.Keys)
    ensures NodeOf(prev, next, k, ActionsOf(plan, k))
  {
  }

  /** Handling key: its own actions are in place, other nodes may have gained the update of its parent. */
  lemma ComparedMore(prev: StateMap, next: StateMap, p: PlanView, p': PlanView, done: set<Key>, key: Key)
    requires Compared(prev, next, p, done) && key !in done && key in p'.actions
    requires p'.edges == p.edges && p.actions.Keys <= p'.actions.Keys
    requires SoFar(prev, next, key, ActionsOf(p', key), 2) && HasOwn(prev, next, key, ActionsOf(p', key))
    requires forall a :: a in ActionsOf(p, key) ==> a in ActionsOf(p', key)
    requires forall x :: x != key ==> OthersGained(prev, next, ActionsOf(p, x), ActionsOf(p', x), x)
    requires TouchesParent(prev, next, key) ==> ParentUpdated(next, p', key)
    ensures Compared(prev, next, p', done + {key})
  {
    forall k | k != key
      ensures SoFar(prev, next, k, ActionsOf(p', k), if k in done then 2 else 0)
      ensures k !in done ==> OnlyUpdates(ActionsOf(p', k))
      ensures k in done ==> HasOwn(prev, next, k, ActionsOf(p', k))
      ensures forall a :: a in ActionsOf(p, k) ==> a in ActionsOf(p', k)
    {
      assert OthersGained(prev, next, ActionsOf(p, k), ActionsOf(p', k), k);
      if ActionsOf(p', k) != ActionsOf(p, k) {
        AddRequired(prev, next, k, ActionsOf(p, k), Update(k), if k in done then 2 else 0, if k in done then 2 else 0);
        UpdateAdded(ActionsOf(p, k), k);
      }
    }
    forall c | c in done + {key} && TouchesParent(prev, next, c) ensures ParentUpdated(next, p', c) {
    }
  }

  lemma UpdateAdded(actions: seq<Action>, k: Key)
    ensures OnlyUpdates(actions) ==> OnlyUpdates(WithAction(actions, Update(k)))
  {
  }

  ghost predicate OthersGained(prev: StateMap, next: StateMap, actions: seq<Action>, actions': seq<Action>, x: Key) {
    actions' == actions || (actions' == WithAction(actions, Update(x)) && Touched(prev, next, x))
  }

  /** From p0 to p only the list of key has grown, by required actions up to the phase. */
  ghost predicate Grown(prev: StateMap, next: StateMap, p0: PlanView, p: PlanView, key: Key, phase: nat) {
    && p.edges == p0.edges && p.actions.Keys == p0.actions.Keys
    && (forall x :: x != key ==> ActionsOf(p, x) == ActionsOf(p0, x))
    && (forall a :: a in ActionsOf(p0, key) ==> a in ActionsOf(p, key))
    && SoFar(prev, next, key, ActionsOf(p, key), phase)
  }

  lemma GrowBy(prev: StateMap, next: StateMap, p0: PlanView, p: PlanView, key: Key, phase: nat, a: Action, phase': nat)
    requires Grown(prev, next, p0, p, key, phase) && key in p.actions
    requires RequiredAction(prev, next, key, a) && MayAdd(a, phase) && Within(a, phase') && phase <= phase'
    requires UpdateFits(prev, next, key, a, phase, phase')
    ensures var p' := WithActionAt(p, key, a);
      && Grown(prev, next, p0, p', key, phase')
      && a in ActionsOf(p', key) && forall x :: x in ActionsOf(p, key) ==> x in ActionsOf(p', key)
  {
    AddRequired(prev, next, key, ActionsOf(p, key), a, phase, phase');
  }

  /** From p0 to p the node of key has grown up to phase 1, and its parent has been updated if key is outdated. */
  ghost predicate UpdatesAdded(prev: StateMap, next: StateMap, p0: PlanView, own: seq<Action>, p: PlanView, key: Key) {
    && p.edges == p0.edges && p0.actions.Keys <= p.actions.Keys
    && (forall x :: x != key ==> OthersGained(prev, next, ActionsOf(p0, x), ActionsOf(p, x), x))
    && (forall a :: a in ActionsOf(p0, key) || a in own ==> a in ActionsOf(p, key))
    && SoFar(prev, next, key, ActionsOf(p, key), 1)
    && (TouchesParent(prev, next, key) ==> Update(key) in ActionsOf(p, key) && ParentUpdated(next, p, key))
  }

  lemma NothingTouched(prev: StateMap, next: StateMap, p0: PlanView, p: PlanView, key: Key)
    requires !TouchesParent(prev, next, key) && Grown(prev, next, p0, p, key, 1)
    ensures UpdatesAdded(prev, next, p0, ActionsOf(p, key), p, key)
  {
  }

  lemma ParentTouched(prev: StateMap, next: StateMap, p0: PlanView, p1: PlanView, key: Key)
    requires TouchesParent(prev, next, key) && Grown(prev, next, p0, p1, key, 1) && Update(key) in ActionsOf(p1, key)
    requires forall x :: SoFar(prev, next, x, ActionsOf(p0, x), 2)
    ensures var s := ParentKey(next[key]);
      UpdatesAdded(prev, next, p0, ActionsOf(p1, key), WithActionAt(WithNode(p1, s), s, Update(s)), key)
  {
    var s := ParentKey(next[key]);
    assert Touched(prev, next, s);
    var phase := if s == key then 1 else 2;
    assert SoFar(prev, next, s, ActionsOf(p0, s), 2);
    AddRequired(prev, next, s, ActionsOf(p1, s), Update(s), phase, phase);
  }

  // ---- The phases of buildActions put together.

  ghost predicate DetachedIn(prev: StateMap, next: StateMap, p: PlanView, key: Key, ds: set<Key>) {
    forall d :: d in ds && d !in Consumers(Lookup(next, key)) ==> Detach(key, d) in ActionsOf(p, key)
  }

  ghost predicate Detached(prev: StateMap, next: StateMap, p: PlanView, key: Key) {
    DetachedIn(prev, next, p, key, Consumers(Lookup(prev, key)))
  }

  ghost predicate AttachedIn(prev: StateMap, next: StateMap, p: PlanView, key: Key, ds: set<Key>)
    requires ds <= Consumers(Lookup(next, key))
  {
    forall d :: d in ds && d !in Consumers(Lookup(prev, key)) ==>
      Attach(key, d, DependencyKeys(Lookup(next, key))[d]) in ActionsOf(p, key)
  }

  ghost predicate Attached(prev: StateMap, next: StateMap, p: PlanView, key: Key) {
    AttachedIn(prev, next, p, key, Consumers(Lookup(next, key)))
  }

  ghost predicate Keeps(actions: seq<Action>, actions': seq<Action>) {
    forall a :: a in actions ==> a in actions'
  }

  lemma NodeStarts(prev: StateMap, next: StateMap, p: PlanView, p0: PlanView, done: set<Key>, key: Key)
    requires Compared(prev, next, p, done) && key !in done && p0 == WithNode(p, key)
    ensures Compared(prev, next, p0, done) && Grown(prev, next, p0, p0, key, 0)
    ensures forall x :: SoFar(prev, next, x, ActionsOf(p0, x), 2)
  {
    forall x ensures ActionsOf(p0, x) == ActionsOf(p, x) {
    }
    forall x ensures SoFar(prev, next, x, ActionsOf(p0, x), 2) {
      SoFarLater(prev, next, x, ActionsOf(p, x), if x in done then 2 else 0);
    }
    forall c | c in done && TouchesParent(prev, next, c) ensures ParentUpdated(next, p0, c) {
      assert ParentUpdated(next, p, c);
    }
  }

  lemma SoFarLater(prev: StateMap, next: StateMap, k: Key, actions: seq<Action>, phase: nat)
    requires SoFar(prev, next, k, actions, phase) && phase <= 2
    ensures SoFar(prev, next, k, actions, 2)
  {
  }

  lemma GrowsFrom(prev: StateMap, next: StateMap, p0: PlanView, own: seq<Action>, p: PlanView, key: Key)
    requires UpdatesAdded(prev, next, p0, own, p, key)
    ensures Grown(prev, next, p, p, key, 2)
  {
  }

  lemma NodeEndsEarly(prev: StateMap, next: StateMap, p0: PlanView, p1: PlanView, p: PlanView, done: set<Key>, key: Key)
    requires Compared(prev, next, p0, done) && key !in done && key in p0.actions
    requires Detached(prev, next, p1, key) && Keeps(ActionsOf(p1, key), ActionsOf(p, key))
    requires Consumers(Lookup(next, key)) == {} && Delete(key) in ActionsOf(p, key)
    requires Grown(prev, next, p0, p, key, 1)
    ensures Compared(prev, next, p, done + {key})
  {
    forall a | OwnAction(Lookup(prev, key), Lookup(next, key), key, a) ensures a in ActionsOf(p, key) {
      if a.Detach? {
        assert Detach(key, a.dep) in ActionsOf(p1, key);
      }
    }
    ComparedMore(prev, next, p0, p, done, key);
  }

  lemma NodeEnds(prev: StateMap, next: StateMap, p0: PlanView, p1: PlanView, p2: PlanView, p3: PlanView, p: PlanView, done: set<Key>, key: Key)
    requires Compared(prev, next, p0, done) && key !in done && key in p0.actions
    requires !(Consumers(Lookup(prev, key)) != {} && Consumers(Lookup(next, key)) == {})
    requires Detached(prev, next, p1, key) && Keeps(ActionsOf(p1, key), ActionsOf(p2, key))
    requires Consumers(Lookup(prev, key)) == {} && Consumers(Lookup(next, key)) != {} ==> Create(key) in ActionsOf(p2, key)
    requires UpdatesAdded(prev, next, p0, ActionsOf(p2, key), p3, key)
    requires Grown(prev, next, p3, p, key, 2) && Attached(prev, next, p, key)
    ensures Compared(prev, next, p, done + {key})
  {
    assert Keeps(ActionsOf(p2, key), ActionsOf(p3, key)) && Keeps(ActionsOf(p3, key), ActionsOf(p, key));
    forall a | OwnAction(Lookup(prev, key), Lookup(next, key), key, a) ensures a in ActionsOf(p, key) {
      if a.Detach? {
        assert Detach(key, a.dep) in ActionsOf(p1, key);
      } else if a.Attach? {
        assert a == Attach(key, a.dep, DependencyKeys(Lookup(next, key))[a.dep]);
      } else if a.Update? {
        assert TouchesParent(prev, next, key);
      }
    }
    ComparedMore(prev, next, p0, p, done, key);
  }

  lemma OneLess(all: set<Key>, todo: set<Key>, k: Key)
    requires k in todo && todo <= all
    ensures all - todo + {k} == all - (todo - {k})
  {
  }

  // ---- The edges.

  function WithEdge(p: PlanView, key: Key, keyOut: Key): PlanView {
    var p' := WithNode(WithNode(p, key), keyOut);
    p'.(edges := p'.edges + [Edge(key, keyOut)])
  }

  /** From p to p' the edges of the keys in done have been added, and those from key to outs. */
  ghost predicate Linked(next: StateMap, p: PlanView, p': PlanView, done: set<Key>, key: Key, outs: set<Key>) {
    && p.actions.Keys <= p'.actions.Keys
    && (forall x :: ActionsOf(p', x) == ActionsOf(p, x))
    && (forall e :: e in p'.edges <==> DesiredEdge(next, e) && (e.waiter in done || (e.waiter == key && e.needed in outs)))
    && (forall i, j :: 0 <= i < j < |p'.edges| ==> p'.edges[i] != p'.edges[j])
    && (forall e :: e in p'.edges ==> e.waiter in p'.actions && e.needed in p'.actions)
  }

  lemma LinkedStart(next: StateMap, p: PlanView, p': PlanView, done: set<Key>, key: Key)
    requires Linked(next, p, p', done, "", {})
    ensures Linked(next, p, p', done, key, {})
  {
  }

  lemma LinkedEnd(next: StateMap, p: PlanView, p': PlanView, done: set<Key>, key: Key)
    requires Linked(next, p, p', done, key, if key in next then next[key].edgesOut else {})
    ensures Linked(next, p, p', done + {key}, "", {})
  {
  }

  lemma LinkOne(next: StateMap, p: PlanView, p': PlanView, done: set<Key>, key: Key, outs: set<Key>, keyOut: Key)
    requires Linked(next, p, p', done, key, outs)
    requires key !in done && keyOut !in outs && key in next && keyOut in next[key].edgesOut
    ensures Linked(next, p, WithEdge(p', key, keyOut), done, key, outs + {keyOut})
  {
  }

  lemma ComparedAndLinked(prev: StateMap, next: StateMap, p: PlanView, p': PlanView)
    requires Compared(prev, next, p, prev.Keys + next.Keys) && Linked(next, p, p', prev.Keys + next.Keys, "", {})
    ensures IsDiff(prev, next, p')
  {
    forall k ensures NodeOf(prev, next, k, ActionsOf(p', k)) {
      ComparedAll(prev, next, p, k);
    }
  }

  class PolicyResolutionDiff {
    const Prev: StateMap
    const Next: StateMap
    const ActionPlan: Plan

    /** NewPolicyResolutionDiff: the finished plan is one the comparison may produce. */
    constructor (next: StateMap, prev: StateMap)
      ensures Prev == prev && Next == next
      ensures ActionPlan.Valid() && IsDiff(prev, next, ActionPlan.View())
    {
      Prev, Next := prev, next;
      ActionPlan := new Plan();
      new;
      CompareAndProduceActions();
    }

    ghost predicate IsNode(node: GraphNode)
      reads ActionPlan
    {
      node.Key in ActionPlan.NodeMap && ActionPlan.NodeMap[node.Key] == node
    }

    ghost function Actions(key: Key): seq<Action>
      reads ActionPlan, ActionPlan.NodeMap.Values
    {
      ActionsOf(ActionPlan.View(), key)
    }

    /** node.AddAction(a, true), for an action that the comparison asks for. */
    method Add(node: GraphNode, a: Action, ghost p0: PlanView, ghost phase: nat, ghost phase': nat)
      requires ActionPlan.Valid() && IsNode(node) && Grown(Prev, Next, p0, ActionPlan.View(), node.Key, phase)
      requires RequiredAction(Prev, Next, node.Key, a) && MayAdd(a, phase) && Within(a, phase') && phase <= phase'
      requires UpdateFits(Prev, Next, node.Key, a, phase, phase')
      modifies node`Actions
      ensures ActionPlan.Valid() && Grown(Prev, Next, p0, ActionPlan.View(), node.Key, phase')
      ensures a in Actions(node.Key) && Keeps(old(Actions(node.Key)), Actions(node.Key))
    {
      GrowBy(Prev, Next, p0, ActionPlan.View(), node.Key, phase, a, phase');
      ActionPlan.AddAction(node, a);
    }

    method DetachMissing(node: GraphNode, ghost p0: PlanView)
      requires ActionPlan.Valid() && IsNode(node) && Grown(Prev, Next, p0, ActionPlan.View(), node.Key, 0)
      modifies node`Actions
      ensures ActionPlan.Valid() && Grown(Prev, Next, p0, ActionPlan.View(), node.Key, 0)
      ensures Detached(Prev, Next, ActionPlan.View(), node.Key)
    {
      var key := node.Key;
      var depKeysPrev, depKeysNext := DependencyKeys(Lookup(Prev, key)), DependencyKeys(Lookup(Next, key));
      var todo := depKeysPrev.Keys;
      while todo != {}
        invariant todo <= depKeysPrev.Keys
        invariant ActionPlan.Valid() && Grown(Prev, Next, p0, ActionPlan.View(), key, 0)
        invariant DetachedIn(Prev, Next, ActionPlan.View(), key, depKeysPrev.Keys - todo)
      {
        var dependencyID :| dependencyID in todo;
        todo := todo - {dependencyID};
        if dependencyID !in depKeysNext {
          Add(node, Detach(key, dependencyID), p0, 0, 0);
        }
      }
    }

    method AttachNew(node: GraphNode, ghost p0: PlanView)
      requires ActionPlan.Valid() && IsNode(node) && Grown(Prev, Next, p0, ActionPlan.View(), node.Key, 2)
      modifies node`Actions
      ensures ActionPlan.Valid() && Grown(Prev, Next, p0, ActionPlan.View(), node.Key, 2)
      ensures Attached(Prev, Next, ActionPlan.View(), node.Key)
    {
      var key := node.Key;
      var depKeysPrev, depKeysNext := DependencyKeys(Lookup(Prev, key)), DependencyKeys(Lookup(Next, key));
      var todo := depKeysNext.Keys;
      while todo != {}
        invariant todo <= depKeysNext.Keys
        invariant ActionPlan.Valid() && Grown(Prev, Next, p0, ActionPlan.View(), key, 2)
        invariant AttachedIn(Prev, Next, ActionPlan.View(), key, depKeysNext.Keys - todo)
      {
        var dependencyID :| dependencyID in todo;
        todo := todo - {dependencyID};
        if dependencyID !in depKeysPrev {
          Add(node, Attach(key, dependencyID, depKeysNext[dependencyID]), p0, 2, 2);
        }
      }
    }

    method UpdateService(serviceKey: Key)
      requires ActionPlan.Valid()
      modifies ActionPlan`NodeMap, ActionPlan.NodeMap.Values`Actions
      ensures ActionPlan.Valid() && fresh(ActionPlan.NodeMap.Values - old(ActionPlan.NodeMap.Values))
      ensures forall k :: k in old(ActionPlan.NodeMap) ==> k in ActionPlan.NodeMap && ActionPlan.NodeMap[k] == old(ActionPlan.NodeMap[k])
      ensures ActionPlan.View() == WithActionAt(WithNode(old(ActionPlan.View()), serviceKey), serviceKey, Update(serviceKey))
    {
      var serviceNode := ActionPlan.GetActionGraphNode(serviceKey);
      assert serviceKey in old(ActionPlan.NodeMap) ==> serviceNode in old(ActionPlan.NodeMap.Values);
      ActionPlan.AddAction(serviceNode, Update(serviceKey));
    }

    /** The update of a changed code instance, and of its parent service. */
    method UpdateWithService(node: GraphNode, ghost p0: PlanView)
      requires ActionPlan.Valid() && IsNode(node) && Grown(Prev, Next, p0, ActionPlan.View(), node.Key, 1)
      requires forall x :: SoFar(Prev, Next, x, ActionsOf(p0, x), 2)
      requires TouchesParent(Prev, Next, node.Key)
      modifies ActionPlan`NodeMap, ActionPlan.NodeMap.Values`Actions
      ensures ActionPlan.Valid() && IsNode(node) && fresh(ActionPlan.NodeMap.Values - old(ActionPlan.NodeMap.Values))
      ensures UpdatesAdded(Prev, Next, p0, old(Actions(node.Key)), ActionPlan.View(), node.Key)
    {
      Add(node, Update(node.Key), p0, 1, 1);
      ParentTouched(Prev, Next, p0, ActionPlan.View(), node.Key);
      UpdateService(ParentKey(Next[node.Key]));
    }

    method UpdateChanged(node: GraphNode, ghost p0: PlanView)
      requires ActionPlan.Valid() && IsNode(node) && Grown(Prev, Next, p0, ActionPlan.View(), node.Key, 1)
      requires forall x :: SoFar(Prev, Next, x, ActionsOf(p0, x), 2)
      modifies ActionPlan`NodeMap, ActionPlan.NodeMap.Values`Actions
      ensures ActionPlan.Valid() && IsNode(node) && fresh(ActionPlan.NodeMap.Values - old(ActionPlan.NodeMap.Values))
      ensures UpdatesAdded(Prev, Next, p0, old(Actions(node.Key)), ActionPlan.View(), node.Key)
    {
      var key := node.Key;
      var prevInstance, nextInstance := Lookup(Prev, key), Lookup(Next, key);
      var isCodeComponent := (prevInstance.Some? && prevInstance.value.isCode) || (nextInstance.Some? && nextInstance.value.isCode);
      if isCodeComponent && |DependencyKeys(prevInstance)| > 0 && |DependencyKeys(nextInstance)| > 0 {
        var sameParams := prevInstance.value.codeParams.DeepEqual(nextInstance.value.codeParams);
        if !sameParams {
          UpdateWithService(node, p0);
          return;
        }
      }
      NothingTouched(Prev, Next, p0, ActionPlan.View(), key);
    }

    /** The part of buildActions for an instance that has lost its last consumer. */
    method Destruct(node: GraphNode, ghost p0: PlanView, ghost done: set<Key>)
      requires ActionPlan.Valid() && IsNode(node) && Grown(Prev, Next, p0, ActionPlan.View(), node.Key, 0)
      requires Compared(Prev, Next, p0, done) && node.Key !in done && node.Key in p0.actions
      requires Detached(Prev, Next, ActionPlan.View(), node.Key)
      requires Consumers(Lookup(Prev, node.Key)) != {} && Consumers(Lookup(Next, node.Key)) == {}
      modifies node`Actions
      ensures ActionPlan.Valid() && Compared(Prev, Next, ActionPlan.View(), done + {node.Key})
    {
      ghost var p1 := ActionPlan.View();
      Add(node, Delete(node.Key), p0, 0, 1);
      NodeEndsEarly(Prev, Next, p0, p1, ActionPlan.View(), done, node.Key);
    }

    /** The part of buildActions for an instance that is not going away. */
    method ConstructOrUpdate(node: GraphNode, ghost p0: PlanView, ghost done: set<Key>)
      requires ActionPlan.Valid() && IsNode(node) && Grown(Prev, Next, p0, ActionPlan.View(), node.Key, 0)
      requires Compared(Prev, Next, p0, done) && node.Key !in done && node.Key in p0.actions
      requires forall x :: SoFar(Prev, Next, x, ActionsOf(p0, x), 2)
      requires Detached(Prev, Next, ActionPlan.View(), node.Key)
      requires !(Consumers(Lookup(Prev, node.Key)) != {} && Consumers(Lookup(Next, node.Key)) == {})
      modifies ActionPlan`NodeMap, ActionPlan.NodeMap.Values`Actions
      ensures ActionPlan.Valid() && fresh(ActionPlan.NodeMap.Values - old(ActionPlan.NodeMap.Values))
      ensures Compared(Prev, Next, ActionPlan.View(), done + {node.Key})
    {
      var key := node.Key;
      ghost var p1 := ActionPlan.View();
      CreateMissing(node, p0);
      ghost var p2 := ActionPlan.View();
      UpdateChanged(node, p0);
      ghost var p3, nodes := ActionPlan.View(), ActionPlan.NodeMap.Values;
      assert fresh(nodes - old(ActionPlan.NodeMap.Values));
      GrowsFrom(Prev, Next, p0, ActionsOf(p2, key), p3, key);
      AttachNew(node, p3);
      assert ActionPlan.NodeMap.Values == nodes;
      NodeEnds(Prev, Next, p0, p1, p2, p3, ActionPlan.View(), done, key);
    }

    method CreateMissing(node: GraphNode, ghost p0: PlanView)
      requires ActionPlan.Valid() && IsNode(node) && Grown(Prev, Next, p0, ActionPlan.View(), node.Key, 0)
      modifies node`Actions
      ensures ActionPlan.Valid() && Grown(Prev, Next, p0, ActionPlan.View(), node.Key, 1)
      ensures Keeps(old(Actions(node.Key)), Actions(node.Key))
      ensures Consumers(Lookup(Prev, node.Key)) == {} && Consumers(Lookup(Next, node.Key)) != {} ==> Create(node.Key) in Actions(node.Key)
    {
      if |DependencyKeys(Lookup(Prev, node.Key))| <= 0 && |DependencyKeys(Lookup(Next, node.Key))| > 0 {
        Add(node, Create(node.Key), p0, 0, 1);
      }
    }

    /** The actions of one key. */
    method BuildActions(key: Key, ghost done: set<Key>)
      requires ActionPlan.Valid() && Compared(Prev, Next, ActionPlan.View(), done) && key !in done
      modifies ActionPlan`NodeMap, ActionPlan.NodeMap.Values`Actions
      ensures ActionPlan.Valid() && fresh(ActionPlan.NodeMap.Values - old(ActionPlan.NodeMap.Values))
      ensures Compared(Prev, Next, ActionPlan.View(), done + {key})
    {
      var node := ActionPlan.GetActionGraphNode(key);
      ghost var p0 := ActionPlan.View();
      NodeStarts(Prev, Next, old(ActionPlan.View()), p0, done, key);
      ghost var nodes := ActionPlan.NodeMap.Values;
      assert fresh(nodes - old(ActionPlan.NodeMap.Values));
      DetachMissing(node, p0);
      assert ActionPlan.NodeMap.Values == nodes;
      if |DependencyKeys(Lookup(Prev, key))| > 0 && |DependencyKeys(Lookup(Next, key))| <= 0 {
        Destruct(node, p0, done);
        return; // exit right away
      }
      ConstructOrUpdate(node, p0, done);
    }

    /** One edge: key has to wait for keyOut. */
    method Connect(key: Key, keyOut: Key)
      requires ActionPlan.Valid()
      modifies ActionPlan, ActionPlan.NodeMap.Values
      ensures ActionPlan.Valid() && fresh(ActionPlan.NodeMap.Values - old(ActionPlan.NodeMap.Values))
      ensures ActionPlan.View() == WithEdge(old(ActionPlan.View()), key, keyOut)
    {
      var node, that := NodesOf(key, keyOut);
      ghost var nodes := ActionPlan.NodeMap.Values;
      assert node in nodes && that in nodes;
      ActionPlan.AddBefore(node, that);
      assert ActionPlan.NodeMap.Values == nodes;
    }

    method NodesOf(key: Key, keyOut: Key) returns (node: GraphNode, that: GraphNode)
      requires ActionPlan.Valid()
      modifies ActionPlan`NodeMap
      ensures ActionPlan.Valid() && fresh(ActionPlan.NodeMap.Values - old(ActionPlan.NodeMap.Values))
      ensures key in ActionPlan.NodeMap && keyOut in ActionPlan.NodeMap
      ensures node == ActionPlan.NodeMap[key] && that == ActionPlan.NodeMap[keyOut] && node.Key == key && that.Key == keyOut
      ensures ActionPlan.View() == WithNode(WithNode(old(ActionPlan.View()), key), keyOut)
    {
      node := ActionPlan.GetActionGraphNode(key);
      that := ActionPlan.GetActionGraphNode(keyOut);
    }

    method LinkNext(key: Key, keyOut: Key, ghost p: PlanView, ghost done: set<Key>, ghost outs: set<Key>)
      requires ActionPlan.Valid() && Linked(Next, p, ActionPlan.View(), done, key, outs)
      requires key !in done && keyOut !in outs && key in Next && keyOut in Next[key].edgesOut
      modifies ActionPlan, ActionPlan.NodeMap.Values
      ensures ActionPlan.Valid() && fresh(ActionPlan.NodeMap.Values - old(ActionPlan.NodeMap.Values))
      ensures Linked(Next, p, ActionPlan.View(), done, key, outs + {keyOut})
    {
      LinkOne(Next, p, ActionPlan.View(), done, key, outs, keyOut);
      Connect(key, keyOut);
    }

    /** First part: the actions of every key, in any order. */
    method ProduceActions(allCompInstances: set<Key>)
      requires ActionPlan.Valid() && ActionPlan.View() == PlanView(map[], [])
      modifies ActionPlan, ActionPlan.NodeMap.Values
      ensures ActionPlan.Valid() && fresh(ActionPlan.NodeMap.Values - old(ActionPlan.NodeMap.Values))
      ensures Compared(Prev, Next, ActionPlan.View(), allCompInstances)
    {
      var todo := allCompInstances;
      while todo != {}
        invariant todo <= allCompInstances
        invariant ActionPlan.Valid() && fresh(ActionPlan.NodeMap.Values - old(ActionPlan.NodeMap.Values))
        invariant Compared(Prev, Next, ActionPlan.View(), allCompInstances - todo)
      {
        var key :| key in todo;
        BuildActions(key, allCompInstances - todo);
        OneLess(allCompInstances, todo, key);
        todo := todo - {key};
      }
      assert allCompInstances - todo == allCompInstances;
    }

    /** Second part: the edges of every key, in any order. */
    method ProduceEdges(allCompInstances: set<Key>)
      requires ActionPlan.Valid() && ActionPlan.View().edges == []
      modifies ActionPlan, ActionPlan.NodeMap.Values
      ensures ActionPlan.Valid() && fresh(ActionPlan.NodeMap.Values - old(ActionPlan.NodeMap.Values))
      ensures Linked(Next, old(ActionPlan.View()), ActionPlan.View(), allCompInstances, "", {})
    {
      ghost var p := ActionPlan.View();
      var todo := allCompInstances;
      while todo != {}
        invariant todo <= allCompInstances
        invariant ActionPlan.Valid() && fresh(ActionPlan.NodeMap.Values - old(ActionPlan.NodeMap.Values))
        invariant Linked(Next, p, ActionPlan.View(), allCompInstances - todo, "", {})
      {
        var key :| key in todo;
        var outgoing := if key in Next then Next[key].edgesOut else {};
        LinkedStart(Next, p, ActionPlan.View(), allCompInstances - todo, key);
        ProduceEdgesOf(key, outgoing, p, allCompInstances - todo);
        LinkedEnd(Next, p, ActionPlan.View(), allCompInstances - todo, key);
        OneLess(allCompInstances, todo, key);
        todo := todo - {key};
      }
      assert allCompInstances - todo == allCompInstances;
    }

    method ProduceEdgesOf(key: Key, outgoing: set<Key>, ghost p: PlanView, ghost done: set<Key>)
      requires ActionPlan.Valid() && key !in done
      requires outgoing == if key in Next then Next[key].edgesOut else {}
      requires Linked(Next, p, ActionPlan.View(), done, key, {})
      modifies ActionPlan, ActionPlan.NodeMap.Values
      ensures ActionPlan.Valid() && fresh(ActionPlan.NodeMap.Values - old(ActionPlan.NodeMap.Values))
      ensures Linked(Next, p, ActionPlan.View(), done, key, outgoing)
    {
      var todo := outgoing;
      assert outgoing - todo == {};
      while todo != {}
        invariant todo <= outgoing
        invariant ActionPlan.Valid() && fresh(ActionPlan.NodeMap.Values - old(ActionPlan.NodeMap.Values))
        invariant Linked(Next, p, ActionPlan.View(), done, key, outgoing - todo)
      {
        var keyOut :| keyOut in todo;
        LinkNext(key, keyOut, p, done, outgoing - todo);
        OneLess(outgoing, todo, keyOut);
        todo := todo - {keyOut};
      }
      assert outgoing - todo == outgoing;
    }

    method CompareAndProduceActions()
      requires ActionPlan.Valid() && ActionPlan.View() == PlanView(map[], [])
      modifies ActionPlan, ActionPlan.NodeMap.Values
      ensures ActionPlan.Valid() && IsDiff(Prev, Next, ActionPlan.View())
    {
      var allCompInstances := Prev.Keys + Next.Keys;
      ProduceActions(allCompInstances);
      ghost var p := ActionPlan.View();
      ProduceEdges(allCompInstances);
      ComparedAndLinked(Prev, Next, p, ActionPlan.View());
    }
  }
}

/**
 Which plans the comparison of the actual state (prev) with the desired state (next) may produce.
 Go iterates over maps in any order, so this is a relation.
 */
module DiffSpec {
  import opened Prelude
  import opened ComponentKey
  import opened Instances
  import opened ComponentActions
  import opened Scheduler

  /** A plan: the actions of each node, and the edges in the order they were added. */
  datatype PlanView = PlanView(actions: map<Key, seq<Action>>, edges: seq<Edge>)

  function Consumers(v: Option<Instance>): set<Key> {
    DependencyKeys(v).Keys
  }

  /** A code instance with consumers before and after, whose parameters differ. */
  predicate Outdated(v: Option<Instance>, w: Option<Instance>) {
    && v.Some? && w.Some? && (v.value.isCode || w.value.isCode)
    && v.value.dependencyKeys.Keys != {} && w.value.dependencyKeys.Keys != {}
    && !v.value.codeParams.DeepEqual(w.value.codeParams)
  }

  /** The actions that node k owes to the comparison of its own two entries. */
  predicate OwnAction(v: Option<Instance>, w: Option<Instance>, k: Key, a: Action) {
    a.key == k &&
    match a
    case Detach(_, d) => d in Consumers(v) && d !in Consumers(w)
    case Delete(_) => Consumers(v) != {} && Consumers(w) == {}
    case Create(_) => Consumers(v) == {} && Consumers(w) != {}
    case Update(_) => Outdated(v, w)
    case Attach(_, d, depth) => d !in Consumers(v) && d in Consumers(w) && depth == DependencyKeys(w)[d]
  }

  /** A component with this parent service is outdated. */
  ghost predicate Touched(prev: StateMap, next: StateMap, service: Key) {
    exists k :: k in next && Outdated(Lookup(prev, k), Lookup(next, k)) && ParentKey(next[k]) == service
  }

  ghost predicate RequiredAction(prev: StateMap, next: StateMap, k: Key, a: Action) {
    OwnAction(Lookup(prev, k), Lookup(next, k), k, a) || (a == Update(k) && Touched(prev, next, k))
  }

  /** Detachments come before the deletion and before attachments, the creation before attachments. */
  ghost predicate InOrder(actions: seq<Action>) {
    forall i, j :: 0 <= i < j < |actions| ==>
      && !(actions[j].Detach? && (actions[i].Delete? || actions[i].Create? || actions[i].Attach?))
      && !(actions[j].Create? && actions[i].Attach?)
  }

  /** The node's own update comes between; that of a service may come with any of its components. */
  ghost predicate UpdateInOrder(actions: seq<Action>) {
    forall i, j :: 0 <= i < j < |actions| ==>
      !(actions[j].Detach? && actions[i].Update?) && !(actions[j].Update? && actions[i].Attach?)
  }

  /** No two actions of the same name. */
  ghost predicate DistinctNames(actions: seq<Action>) {
    forall i, j :: 0 <= i < j < |actions| ==> GetName(actions[i]) != GetName(actions[j])
  }

  ghost predicate NodeOf(prev: StateMap, next: StateMap, k: Key, actions: seq<Action>) {
    && DistinctNames(actions)
    && InOrder(actions) && (Touched(prev, next, k) || UpdateInOrder(actions))
    && forall a :: a in actions <==> RequiredAction(prev, next, k, a)
  }

  function ActionsOf(plan: PlanView, k: Key): seq<Action> {
    if k in plan.actions then plan.actions[k] else []
  }

  /** An edge of the desired state: k has to wait for out. */
  predicate DesiredEdge(next: StateMap, e: Edge) {
    e.waiter in next && e.needed in next[e.waiter].edgesOut
  }

  ghost predicate IsDiff(prev: StateMap, next: StateMap, plan: PlanView) {
    && prev.Keys + next.Keys <= plan.actions.Keys
    && (forall k :: NodeOf(prev, next, k, ActionsOf(plan, k)))
    && (forall e :: e in plan.edges <==> DesiredEdge(next, e))
    && (forall i, j :: 0 <= i < j < |plan.edges| ==> plan.edges[i] != plan.edges[j])
    && (forall e :: e in plan.edges ==> e.waiter in plan.actions && e.needed in plan.actions)
  }

  function GraphOf(plan: PlanView): Graph {
    Graph(map k | k in plan.actions :: |plan.actions[k]|, plan.edges)
  }

  /** The plan asks for nothing. */
  ghost predicate NoActions(plan: PlanView) {
    forall k :: k in plan.actions ==> plan.actions[k] == []
  }

  /** The two entries agree, as far as the comparison looks: consumers, and parameters of code in use. */
  ghost predicate EntriesAgree(v: Option<Instance>, w: Option<Instance>) {
    Consumers(v) == Consumers(w) && !Outdated(v, w)
  }

  ghost predicate StatesAgree(actual: StateMap, desired: StateMap) {
    forall k :: EntriesAgree(Lookup(actual, k), Lookup(desired, k))
  }

  /** The exact meaning of an empty plan: it has no action if and only if the states agree. */
  lemma NoActionsIffAgree(prev: StateMap, next: StateMap, plan: PlanView)
    requires IsDiff(prev, next, plan)
    ensures NoActions(plan) <==> StatesAgree(prev, next)
  {
    if NoActions(plan) {
      forall k ensures EntriesAgree(Lookup(prev, k), Lookup(next, k)) {
        NothingRequired(prev, next, plan, k);
      }
    } else {
      var k :| k in plan.actions && plan.actions[k] != [];
      var a := plan.actions[k][0];
      assert a in ActionsOf(plan, k);
      ActionDisagrees(prev, next, k, a);
    }
  }

  lemma NothingRequired(prev: StateMap, next: StateMap, plan: PlanView, k: Key)
    requires IsDiff(prev, next, plan) && NoActions(plan)
    ensures EntriesAgree(Lookup(prev, k), Lookup(next, k))
  {
    var v, w := Lookup(prev, k), Lookup(next, k);
    assert NodeOf(prev, next, k, ActionsOf(plan, k));
    assert !RequiredAction(prev, next, k, Update(k));
    forall d ensures d in Consumers(v) <==> d in Consumers(w) {
      assert !RequiredAction(prev, next, k, Detach(k, d));
      if d in Consumers(w) {
        assert !RequiredAction(prev, next, k, Attach(k, d, DependencyKeys(w)[d]));
      }
    }
  }

  lemma ActionDisagrees(prev: StateMap, next: StateMap, k: Key, a: Action)
    requires RequiredAction(prev, next, k, a)
    ensures !StatesAgree(prev, next)
  {
  }

  /** Code in use before and after is outdated exactly if its parameters are not the same, where nil and empty ones are. */
  lemma OutdatedIff(prev: StateMap, next: StateMap, k: Key)
    ensures Outdated(Lookup(prev, k), Lookup(next, k)) <==>
      && k in prev && k in next && (prev[k].isCode || next[k].isCode)
      && prev[k].dependencyKeys != map[] && next[k].dependencyKeys != map[]
      && prev[k].codeParams != next[k].codeParams && !(prev[k].codeParams.Empty() && next[k].codeParams.Empty())
  {
    if k in prev {
      NoKeys(prev[k].dependencyKeys);
    }
    if k in next {
      NoKeys(next[k].dependencyKeys);
    }
  }

  lemma NoKeys(m: map<Key, int>)
    ensures m.Keys == {} <==> m == map[]
  {
  }

  /** What a plan does with an instance as a whole, in terms of the two states; and what its node waits for. */
  lemma PlanIff(prev: StateMap, next: StateMap, plan: PlanView, k: Key)
    requires IsDiff(prev, next, plan)
    ensures var actions, used, wanted := ActionsOf(plan, k), k in prev && prev[k].dependencyKeys != map[], k in next && next[k].dependencyKeys != map[];
      && (Create(k) in actions <==> !used && wanted)
      && (Delete(k) in actions <==> used && !wanted)
      && (Update(k) in actions <==>
            Outdated(Lookup(prev, k), Lookup(next, k))
            || exists c :: c in next && Outdated(Lookup(prev, c), Lookup(next, c)) && next[c].cik.GetParentServiceKey().GetKey() == k)
    ensures forall a :: a in ActionsOf(plan, k) ==> a.key == k
    ensures forall e :: Edge(k, e) in plan.edges <==> k in next && e in next[k].edgesOut
  {
    assert NodeOf(prev, next, k, ActionsOf(plan, k));
    NoConsumers(prev, k);
    NoConsumers(next, k);
    assert Create(k) in ActionsOf(plan, k) <==> RequiredAction(prev, next, k, Create(k));
    assert Delete(k) in ActionsOf(plan, k) <==> RequiredAction(prev, next, k, Delete(k));
    assert Update(k) in ActionsOf(plan, k) <==> RequiredAction(prev, next, k, Update(k));
    forall e ensures Edge(k, e) in plan.edges <==> DesiredEdge(next, Edge(k, e)) {
    }
  }

  lemma NoConsumers(m: StateMap, k: Key)
    ensures Consumers(Lookup(m, k)) == {} <==> !(k in m && m[k].dependencyKeys != map[])
  {
    if k in m {
      NoKeys(m[k].dependencyKeys);
    }
  }

  /** And with its consumers: those too many are detached, and those missing attached, at their desired depth. */
  lemma PlanForConsumerIff(prev: StateMap, next: StateMap, plan: PlanView, k: Key, d: Key)
    requires IsDiff(prev, next, plan)
    ensures var actions, used, wanted := ActionsOf(plan, k), k in prev && d in prev[k].dependencyKeys, k in next && d in next[k].dependencyKeys;
      && (Detach(k, d) in actions <==> used && !wanted)
      && (forall n :: Attach(k, d, n) in actions <==> !used && wanted && n == next[k].dependencyKeys[d])
  {
    assert NodeOf(prev, next, k, ActionsOf(plan, k));
    assert Detach(k, d) in ActionsOf(plan, k) <==> RequiredAction(prev, next, k, Detach(k, d));
    forall n ensures Attach(k, d, n) in ActionsOf(plan, k) <==> RequiredAction(prev, next, k, Attach(k, d, n)) {
    }
  }

  /** The deletion of an instance is asked for exactly if it has consumers, and is to have none. */
  lemma DeletionRequiredIff(prev: StateMap, next: StateMap, plan: PlanView, k: Key)
    requires IsDiff(prev, next, plan)
    ensures Delete(k) in ActionsOf(plan, k) <==> Consumers(Lookup(prev, k)) != {} && Consumers(Lookup(next, k)) == {}
  {
    assert NodeOf(prev, next, k, ActionsOf(plan, k));
    assert Delete(k) in ActionsOf(plan, k) <==> RequiredAction(prev, next, k, Delete(k));
  }

  /**
   A lost deletion: once an instance has no consumers left but is still there, because its deletion failed
   after all detachments had succeeded, no later comparison asks for its deletion.
   */
  lemma OrphanIsNeverDeleted(prev: StateMap, next: StateMap, plan: PlanView, k: Key)
    requires IsDiff(prev, next, plan) && k in prev && prev[k].dependencyKeys == map[] && Consumers(Lookup(next, k)) == {}
    ensures forall a :: a in ActionsOf(plan, k) ==> a == Update(k)
    ensures EntriesAgree(Lookup(prev, k), Lookup(next, k))
  {
  }
}

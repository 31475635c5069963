/** The action graph: nodes that point at each other in both directions, and the plan that holds them by key. */
module ActionGraph {
  import opened Prelude
  import opened ComponentActions
  import opened Scheduler
  import opened DiffSpec

  /** A list of actions after AddAction: a second action of the same name is dropped. */
  function WithAction(actions: seq<Action>, a: Action): seq<Action> {
    if exists i :: 0 <= i < |actions| && GetName(actions[i]) == GetName(a) then actions else actions + [a]
  }

  class GraphNode {
    const Key: Key
    var Before: seq<GraphNode>
    var BeforeRev: seq<GraphNode>
    var Actions: seq<Action>

    constructor (key: Key)
      ensures Key == key && Before == [] && BeforeRev == [] && Actions == []
    {
      Key, Before, BeforeRev, Actions := key, [], [], [];
    }

    method AddBefore(that: GraphNode)
      modifies this`Before, that`BeforeRev
      ensures Before == old(Before) + [that]
      ensures that.BeforeRev == old(that.BeforeRev) + [this]
    {
      Before := Before + [that];
      that.BeforeRev := that.BeforeRev + [this];
    }

    method AddAction(action: Action, avoidDuplicates: bool)
      modifies this`Actions
      ensures Actions == if avoidDuplicates then WithAction(old(Actions), action) else old(Actions) + [action]
    {
      var add := true;
      if avoidDuplicates {
        var i := 0;
        while i < |Actions|
          invariant 0 <= i <= |Actions| && add
          invariant forall j :: 0 <= j < i ==> GetName(Actions[j]) != GetName(action)
        {
          if GetName(Actions[i]) == GetName(action) {
            add := false;
            break;
          }
          i := i + 1;
        }
      }
      if add {
        Actions := Actions + [action];
      }
    }
  }

  /** The nodes that k has to wait for, in the order the edges were added. */
  function NeededBy(edges: seq<Edge>, k: Key): seq<Key> {
    if edges == [] then []
    else
      var e := edges[|edges| - 1];
      NeededBy(edges[..|edges| - 1], k) + (if e.waiter == k then [e.needed] else [])
  }

  /** The nodes waiting for k, in the order the edges were added. */
  function WaitersOf(edges: seq<Edge>, k: Key): seq<Key> {
    if edges == [] then []
    else
      var e := edges[|edges| - 1];
      WaitersOf(edges[..|edges| - 1], k) + (if e.needed == k then [e.waiter] else [])
  }

  /** The plan with a node for the key. */
  function WithNode(plan: PlanView, key: Key): PlanView {
    plan.(actions := plan.actions[key := ActionsOf(plan, key)])
  }

  /** The plan with an action added to the node of the key. */
  function WithActionAt(plan: PlanView, key: Key, a: Action): PlanView {
    plan.(actions := plan.actions[key := WithAction(ActionsOf(plan, key), a)])
  }

  class Plan {
    var NodeMap: map<Key, GraphNode>
    ghost var edges: seq<Edge>

    /** The list of nodes is the one with the given keys. */
    ghost predicate Lists(nodes: seq<GraphNode>, keys: seq<Key>)
      reads this
    {
      |nodes| == |keys| && forall i :: 0 <= i < |keys| ==> keys[i] in NodeMap && nodes[i] == NodeMap[keys[i]]
    }

    ghost predicate Valid()
      reads this, NodeMap.Values
    {
      && (forall k :: k in NodeMap ==> NodeMap[k].Key == k)
      && (forall i :: 0 <= i < |edges| ==> edges[i].waiter in NodeMap && edges[i].needed in NodeMap)
      && (forall k {:trigger Lists(NodeMap[k].Before, NeededBy(edges, k))} :: k in NodeMap ==> Lists(NodeMap[k].Before, NeededBy(edges, k)))
      && (forall k {:trigger Lists(NodeMap[k].BeforeRev, WaitersOf(edges, k))} :: k in NodeMap ==> Lists(NodeMap[k].BeforeRev, WaitersOf(edges, k)))
    }

    ghost function View(): PlanView
      reads this, NodeMap.Values
    {
      PlanView(map k | k in NodeMap :: NodeMap[k].Actions, edges)
    }

    constructor ()
      ensures Valid() && NodeMap == map[] && View() == PlanView(map[], [])
    {
      NodeMap, edges := map[], [];
    }

    method GetActionGraphNode(key: Key) returns (node: GraphNode)
      requires Valid()
      modifies this`NodeMap
      ensures Valid() && key in NodeMap && NodeMap[key] == node
      ensures if key in old(NodeMap) then NodeMap == old(NodeMap) else NodeMap == old(NodeMap)[key := node] && fresh(node)
      ensures View() == WithNode(old(View()), key)
    {
      if key in NodeMap {
        node := NodeMap[key];
        assert View() == WithNode(old(View()), key);
      } else {
        node := new GraphNode(key);
        NodeMap := NodeMap[key := node];
        assert View().actions == old(View().actions)[key := []];
        NoEdges(edges, key);
        forall k | k in NodeMap
          ensures Lists(NodeMap[k].Before, NeededBy(edges, k)) && Lists(NodeMap[k].BeforeRev, WaitersOf(edges, k))
        {
          if k != key {
            assert old(Lists(NodeMap[k].Before, NeededBy(edges, k)));
            assert old(Lists(NodeMap[k].BeforeRev, WaitersOf(edges, k)));
          }
        }
      }
    }

    /** node.AddAction for a node of this plan. */
    method AddAction(node: GraphNode, action: Action)
      requires Valid() && node.Key in NodeMap && NodeMap[node.Key] == node
      modifies node`Actions
      ensures Valid()
      ensures View() == WithActionAt(old(View()), node.Key, action)
    {
      node.AddAction(action, true);
    }

    /** node.AddBefore for two nodes of this plan. */
    method AddBefore(node: GraphNode, that: GraphNode)
      requires Valid() && node.Key in NodeMap && NodeMap[node.Key] == node
      requires that.Key in NodeMap && NodeMap[that.Key] == that
      modifies node`Before, that`BeforeRev, this`edges
      ensures Valid()
      ensures View() == old(View()).(edges := old(View()).edges + [Edge(node.Key, that.Key)])
    {
      node.AddBefore(that);
      edges := edges + [Edge(node.Key, that.Key)];
      assert View().actions == old(View().actions);
      forall k | k in NodeMap ensures Lists(NodeMap[k].Before, NeededBy(edges, k)) {
        EdgeAdded(old(edges), Edge(node.Key, that.Key), k);
        assert old(Lists(NodeMap[k].Before, NeededBy(edges, k)));
        assert NodeMap[k].Before == old(NodeMap[k].Before) + if k == node.Key then [that] else [];
      }
      forall k | k in NodeMap ensures Lists(NodeMap[k].BeforeRev, WaitersOf(edges, k)) {
        EdgeAdded(old(edges), Edge(node.Key, that.Key), k);
        assert old(Lists(NodeMap[k].BeforeRev, WaitersOf(edges, k)));
        assert NodeMap[k].BeforeRev == old(NodeMap[k].BeforeRev) + if k == that.Key then [node] else [];
      }
    }

    /** Before and BeforeRev are mutual inverses. */
    lemma MutualInverses(k: Key, n: Key)
      requires Valid() && k in NodeMap && n in NodeMap
      ensures NodeMap[n] in NodeMap[k].Before <==> NodeMap[k] in NodeMap[n].BeforeRev
    {
      NeededMember(edges, k, n);
      WaiterMember(edges, n, k);
      KeysInLists(NodeMap[k].Before, NeededBy(edges, k), n);
      KeysInLists(NodeMap[n].BeforeRev, WaitersOf(edges, n), k);
    }

    lemma KeysInLists(nodes: seq<GraphNode>, keys: seq<Key>, n: Key)
      requires Valid() && n in NodeMap && Lists(nodes, keys)
      ensures NodeMap[n] in nodes <==> n in keys
    {
    }

    /**
     The two lists as the scheduler sees them: the length of Before is the degree, and BeforeRev is
     walked in the order of the edges.
     */
    lemma ListsAreGraph(k: Key)
      requires Valid() && k in NodeMap
      ensures var g := GraphOf(View());
        && |NodeMap[k].Before| == |g.Before(k)|
        && |NodeMap[k].BeforeRev| == |g.BeforeRev(k)|
        && forall i :: 0 <= i < |NodeMap[k].BeforeRev| ==>
             g.BeforeRev(k)[i] in g.BeforeRev(k) && NodeMap[k].BeforeRev[i].Key == g.edges[g.BeforeRev(k)[i]].waiter
    {
      var g := GraphOf(View());
      assert Lists(NodeMap[k].Before, NeededBy(edges, k)) && Lists(NodeMap[k].BeforeRev, WaitersOf(edges, k));
      NeededCount(g, k, |g.edges|);
      assert g.edges[..|g.edges|] == edges;
      assert (set e: nat | e < |g.edges| && g.edges[e].waiter == k) == g.Before(k);
      WaitersListed(g, k, |g.edges|);
    }
  }

  lemma EdgeAdded(edges: seq<Edge>, e: Edge, k: Key)
    ensures NeededBy(edges + [e], k) == NeededBy(edges, k) + if e.waiter == k then [e.needed] else []
    ensures WaitersOf(edges + [e], k) == WaitersOf(edges, k) + if e.needed == k then [e.waiter] else []
  {
  }

  lemma {:induction false} NoEdges(edges: seq<Edge>, k: Key)
    requires forall i :: 0 <= i < |edges| ==> edges[i].waiter != k && edges[i].needed != k
    ensures NeededBy(edges, k) == [] && WaitersOf(edges, k) == []
  {
    if edges != [] {
      NoEdges(edges[..|edges| - 1], k);
    }
  }

  lemma {:induction false} NeededMember(edges: seq<Edge>, k: Key, n: Key)
    ensures n in NeededBy(edges, k) <==> Edge(k, n) in edges
  {
    if edges != [] {
      NeededMember(edges[..|edges| - 1], k, n);
      assert edges == edges[..|edges| - 1] + [edges[|edges| - 1]];
    }
  }

  lemma {:induction false} WaiterMember(edges: seq<Edge>, k: Key, w: Key)
    ensures w in WaitersOf(edges, k) <==> Edge(w, k) in edges
  {
    if edges != [] {
      WaiterMember(edges[..|edges| - 1], k, w);
      assert edges == edges[..|edges| - 1] + [edges[|edges| - 1]];
    }
  }

  lemma {:induction false} NeededCount(g: Graph, k: Key, n: nat)
    requires n <= |g.edges|
    ensures |NeededBy(g.edges[..n], k)| == |set e: nat | e < n && g.edges[e].waiter == k|
  {
    var s := set e: nat | e < n && g.edges[e].waiter == k;
    if n == 0 {
      assert s == {};
    } else {
      NeededCount(g, k, n - 1);
      assert g.edges[..n][..n - 1] == g.edges[..n - 1];
      var t := set e: nat | e < n - 1 && g.edges[e].waiter == k;
      assert s == if g.edges[n - 1].waiter == k then t + {n - 1} else t;
    }
  }

  lemma {:induction false} WaitersListed(g: Graph, k: Key, n: nat)
    requires n <= |g.edges|
    ensures var r := g.BeforeRevUpTo(k, n);
      && |WaitersOf(g.edges[..n], k)| == |r|
      && forall i :: 0 <= i < |r| ==> r[i] in r && WaitersOf(g.edges[..n], k)[i] == g.edges[r[i]].waiter
  {
    if n > 0 {
      WaitersListed(g, k, n - 1);
      assert g.edges[..n][..n - 1] == g.edges[..n - 1];
      var r, q := g.BeforeRevUpTo(k, n), g.BeforeRevUpTo(k, n - 1);
      assert forall i :: 0 <= i < |q| ==> r[i] == q[i];
    }
  }
}

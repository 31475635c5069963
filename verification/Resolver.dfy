/** The policy resolver: the recursive walk as it is coded, and the combination of all dependencies. */
module Resolver {
  import opened Prelude
  import opened ComponentKey
  import opened Instances
  import opened Resolution
  import opened Merge
  import opened NodeWalk

  /** What is known at one node of the walk. The resolution is shared by all nodes of a dependency. */
  class ResolutionNode<S(!new)> {
    const resolution: PolicyResolution
    const depth: nat
    const dependency: Key
    const arrivalKey: Option<ComponentInstanceKey>
    var scope: S
    var path: seq<Key>

    constructor (resolution: PolicyResolution, depth: nat, dependency: Key, arrivalKey: Option<ComponentInstanceKey>, scope: S, path: seq<Key>)
      ensures this.resolution == resolution && this.depth == depth && this.dependency == dependency
      ensures this.arrivalKey == arrivalKey && this.scope == scope && this.path == path
    {
      this.resolution, this.depth, this.dependency := resolution, depth, dependency;
      this.arrivalKey, this.scope, this.path := arrivalKey, scope, path;
    }

    method CreateChildNode(componentKey: ComponentInstanceKey, child: S) returns (node: ResolutionNode<S>)
      ensures fresh(node) && node.resolution == resolution && node.depth == depth + 1 && node.dependency == dependency
      ensures node.arrivalKey == Some(componentKey) && node.scope == child && node.path == path
    {
      node := new ResolutionNode(resolution, depth + 1, dependency, Some(componentKey), child, path);
    }
  }

  /** How a part of the walk has ended, and with which resolution and, unless it failed, scope. */
  ghost predicate IsOutcome<S>(w: Walked<S>, end: End, m: StateMap, scope: S) {
    w.end == end && w.m == m && (end != Failed ==> w.scope == scope)
  }

  class PolicyResolver<S(!new)> {
    const oracle: Oracle<S>
    ghost const universe: set<Key>
    const resolution: PolicyResolution

    constructor (oracle: Oracle<S>, ghost universe: set<Key>)
      ensures this.oracle == oracle && this.universe == universe
      ensures fresh(resolution) && resolution.Valid() && resolution.View() == map[] && resolution.Owned == {}
    {
      this.oracle, this.universe := oracle, universe;
      this.resolution := new PolicyResolution();
    }

    /** Entries for the service, and the edge to it. */
    method EnterService(node: ResolutionNode<S>, service: ComponentInstanceKey)
      requires node.resolution.Valid()
      modifies node.resolution, node.resolution.Owned
      ensures node.resolution.Valid()
      ensures fresh(node.resolution.Owned - old(node.resolution.Owned))
      ensures node.resolution.View() == EdgeStored(LabelsRecorded(old(node.resolution.View()), service), node.arrivalKey, service)
    {
      node.resolution.RecordLabels(service);
      node.resolution.StoreEdge(node.arrivalKey, service);
    }

    /** The edge to the component, and an entry for it. */
    method EnterComponent(node: ResolutionNode<S>, service: ComponentInstanceKey, cik: ComponentInstanceKey)
      requires node.resolution.Valid()
      modifies node.resolution, node.resolution.Owned
      ensures node.resolution.Valid()
      ensures fresh(node.resolution.Owned - old(node.resolution.Owned))
      ensures node.resolution.View() == LabelsRecorded(EdgeStored(old(node.resolution.View()), Some(service), cik), cik)
    {
      node.resolution.StoreEdge(Some(service), cik);
      node.resolution.RecordLabels(cik);
    }

    /** The walk leaves in the resolution what Walk says, and reports an error exactly when Walk fails. */
    method ResolveNode(node: ResolutionNode<S>) returns (ok: bool)
      requires ValidOracle(oracle, universe) && node.resolution.Valid()
      modifies node, node.resolution, node.resolution.Owned
      ensures node.resolution.Valid()
      ensures fresh(node.resolution.Owned - old(node.resolution.Owned))
      ensures IsOutcome(Walk(oracle, universe, node.dependency, old(node.scope), node.arrivalKey, old(node.path), node.depth,
                             old(node.resolution.View())),
                        if ok then Completed else Failed, node.resolution.View(), node.scope)
      decreases Left(universe, node.path), 0, 0
    {
      ghost var w := Walk(oracle, universe, node.dependency, node.scope, node.arrivalKey, node.path, node.depth, node.resolution.View());
      var entered := oracle.enter(node.scope);
      ghost var m := node.resolution.View();
      if entered.None? {
        assert w == Walked(Failed, m, node.scope);
        return false;
      }
      var service := entered.value;
      var cycle := service.cik.GetKey() in node.path;
      if cycle {
        assert w == Walked(Failed, m, node.scope);
        node.path := node.path + [service.cik.GetKey()];
        return false;
      }
      FewerLeft(universe, node.path, service.cik.GetKey());
      node.path := node.path + [service.cik.GetKey()];
      assert w == WalkService(oracle, universe, node.dependency, service, node.arrivalKey, node.path, node.depth, m);
      ok := ResolveService(node, service);
      assert IsOutcome(w, if ok then Completed else Failed, node.resolution.View(), node.scope);
    }

    /** The rest of resolveNode. */
    method ResolveService(node: ResolutionNode<S>, service: Service<S>) returns (ok: bool)
      requires ValidOracle(oracle, universe) && node.resolution.Valid()
      modifies node`scope, node.resolution, node.resolution.Owned
      ensures node.resolution.Valid()
      ensures fresh(node.resolution.Owned - old(node.resolution.Owned))
      ensures IsOutcome(WalkService(oracle, universe, node.dependency, service, node.arrivalKey, node.path, node.depth,
                                    old(node.resolution.View())),
                        if ok then Completed else Failed, node.resolution.View(), node.scope)
      decreases Left(universe, node.path), if service.components.Some? then |service.components.value| + 1 else 0, 0
    {
      ghost var m := node.resolution.View();
      node.scope := service.scope;
      EnterService(node, service.cik);
      if service.components.None? {
        return false;
      }
      ghost var owned := node.resolution.Owned;
      assert fresh(owned - old(node.resolution.Owned));
      WalkServiceEnds(oracle, universe, node.dependency, service, node.arrivalKey, node.path, node.depth, m);
      var end := ResolveComponents(node, service.cik, service.components.value);
      assert fresh(node.resolution.Owned - owned);
      ok := Finish(node, service.cik, end);
    }

    /** Records the service, unless its components have ended the walk; after a criteria error, the error returned is nil. */
    method Finish(node: ResolutionNode<S>, service: ComponentInstanceKey, end: End) returns (ok: bool)
      requires node.resolution.Valid()
      modifies node.resolution, node.resolution.Owned
      ensures node.resolution.Valid() && fresh(node.resolution.Owned - old(node.resolution.Owned))
      ensures ok == (end != Failed)
      ensures var m := old(node.resolution.View());
        node.resolution.View() == if end == Completed then ResolvedRecorded(m, service, node.dependency, node.depth) else m
    {
      if end == Completed {
        node.resolution.RecordResolved(service, node.dependency, node.depth);
      }
      ok := end != Failed;
    }

    method ResolveComponents(node: ResolutionNode<S>, service: ComponentInstanceKey, components: seq<string>) returns (end: End)
      requires ValidOracle(oracle, universe) && node.resolution.Valid()
      modifies node`scope, node.resolution, node.resolution.Owned
      ensures node.resolution.Valid()
      ensures fresh(node.resolution.Owned - old(node.resolution.Owned))
      ensures IsOutcome(WalkComponents(oracle, universe, node.dependency, old(node.scope), service, components, node.path, node.depth,
                                       old(node.resolution.View())),
                        end, node.resolution.View(), node.scope)
      decreases Left(universe, node.path), |components|, 1
    {
      ghost var w := WalkComponents(oracle, universe, node.dependency, node.scope, service, components, node.path, node.depth,
                                    node.resolution.View());
      var i := 0;
      while i < |components|
        invariant 0 <= i <= |components|
        invariant node.resolution.Valid()
        invariant fresh(node.resolution.Owned - old(node.resolution.Owned))
        invariant w == WalkComponents(oracle, universe, node.dependency, node.scope, service, components[i..], node.path, node.depth,
                                      node.resolution.View())
      {
        assert components[i..][0] == components[i] && components[i..][1..] == components[i + 1..];
        end := ResolveNext(node, service, components[i], components[i..]);
        if end != Completed {
          return;
        }
        i := i + 1;
      }
      end := Completed;
    }

    /** One round of the loop over the components. */
    method ResolveNext(node: ResolutionNode<S>, service: ComponentInstanceKey, name: string, ghost components: seq<string>) returns (end: End)
      requires ValidOracle(oracle, universe) && node.resolution.Valid() && components != [] && components[0] == name
      modifies node`scope, node.resolution, node.resolution.Owned
      ensures node.resolution.Valid()
      ensures fresh(node.resolution.Owned - old(node.resolution.Owned))
      ensures var w := WalkComponents(oracle, universe, node.dependency, old(node.scope), service, components, node.path, node.depth,
                                      old(node.resolution.View()));
        if end == Completed then
          w == WalkComponents(oracle, universe, node.dependency, node.scope, service, components[1..], node.path, node.depth,
                              node.resolution.View())
        else
          IsOutcome(w, end, node.resolution.View(), node.scope)
      decreases Left(universe, node.path), |components|, 0
    {
      match oracle.matches(node.scope, name)
      case CriteriaError =>
        end := Stopped;
      case NotMatched =>
        end := Completed;
      case Matched =>
        var cik := ComponentKeyOf(service, name);
        EnterComponent(node, service, cik);
        ghost var owned := node.resolution.Owned;
        assert fresh(owned - old(node.resolution.Owned));
        end := ResolveComponent(node, name, cik);
        assert fresh(node.resolution.Owned - owned);
        var ok := Finish(node, cik, end);
    }

    method ResolveComponent(node: ResolutionNode<S>, name: string, cik: ComponentInstanceKey) returns (end: End)
      requires ValidOracle(oracle, universe) && node.resolution.Valid()
      modifies node`scope, node.resolution, node.resolution.Owned
      ensures node.resolution.Valid()
      ensures fresh(node.resolution.Owned - old(node.resolution.Owned))
      ensures IsOutcome(WalkComponent(oracle, universe, node.dependency, old(node.scope), name, cik, node.path, node.depth,
                                      old(node.resolution.View())),
                        end, node.resolution.View(), node.scope)
      decreases Left(universe, node.path), 0, 3
    {
      ghost var m, w := node.resolution.View(),
        WalkComponent(oracle, universe, node.dependency, node.scope, name, cik, node.path, node.depth, node.resolution.View());
      var discovered := oracle.discover(node.scope, name);
      if discovered.None? {
        return Failed;
      }
      var ok := node.resolution.RecordDiscoveryParams(cik, discovered.value.0);
      ghost var owned := node.resolution.Owned;
      assert fresh(owned - old(node.resolution.Owned));
      if !ok {
        return Failed;
      }
      assert w == WalkKind(oracle, universe, node.dependency, discovered.value.1, name, cik, node.path, node.depth, node.resolution.View());
      node.scope := discovered.value.1;
      end := ResolveKind(node, name, cik);
      assert IsOutcome(w, end, node.resolution.View(), node.scope);
    }

    method ResolveKind(node: ResolutionNode<S>, name: string, cik: ComponentInstanceKey) returns (end: End)
      requires ValidOracle(oracle, universe) && node.resolution.Valid()
      modifies node`scope, node.resolution, node.resolution.Owned
      ensures node.resolution.Valid()
      ensures fresh(node.resolution.Owned - old(node.resolution.Owned))
      ensures IsOutcome(WalkKind(oracle, universe, node.dependency, old(node.scope), name, cik, node.path, node.depth,
                                 old(node.resolution.View())),
                        end, node.resolution.View(), node.scope)
      decreases Left(universe, node.path), 0, 2
    {
      match oracle.kind(node.scope, name)
      case Code(None) =>
        end := Failed;
      case Code(Some(params)) =>
        var ok := node.resolution.RecordCodeParams(cik, params);
        end := if ok then Completed else Failed;
      case Contract(child) =>
        end := ResolveChild(node, name, cik, child);
      case Neither =>
        end := Completed;
    }

    method ResolveChild(node: ResolutionNode<S>, name: string, cik: ComponentInstanceKey, child: S) returns (end: End)
      requires ValidOracle(oracle, universe) && node.resolution.Valid()
      modifies node`scope, node.resolution, node.resolution.Owned
      ensures node.resolution.Valid()
      ensures fresh(node.resolution.Owned - old(node.resolution.Owned))
      ensures var w := Walk(oracle, universe, node.dependency, child, Some(cik), node.path, node.depth + 1, old(node.resolution.View()));
        IsOutcome(w.(scope := oracle.back(old(node.scope), name, w.scope)), end, node.resolution.View(), node.scope)
      decreases Left(universe, node.path), 0, 1
    {
      ghost var w := Walk(oracle, universe, node.dependency, child, Some(cik), node.path, node.depth + 1, node.resolution.View());
      var nodeNext := node.CreateChildNode(cik, child);
      var ok := ResolveNode(nodeNext);
      assert IsOutcome(w, if ok then Completed else Failed, node.resolution.View(), nodeNext.scope);
      node.scope := oracle.back(node.scope, name, nodeNext.scope);
      end := if ok then Completed else Failed;
    }

    /** Resolves one dependency in a resolution of its own. */
    method ResolveDependency(dependency: Key, scope: S) returns (node: ResolutionNode<S>, ok: bool)
      requires ValidOracle(oracle, universe)
      ensures fresh(node) && fresh(node.resolution) && fresh(node.resolution.Owned) && node.resolution.Valid()
      ensures var w := NodeWalk.ResolveDependency(oracle, universe, dependency, scope);
        ok == (w.end == Completed) && node.resolution.View() == w.m
    {
      var own := new PolicyResolution();
      node := new ResolutionNode(own, 0, dependency, None, scope, []);
      ok := ResolveNode(node);
    }

    /** Under the lock: merges the resolution of a dependency into the common one, if there was no error. */
    method CombineData(node: ResolutionNode<S>, ok: bool)
      requires resolution.Valid() && node.resolution.Valid() && resolution != node.resolution && resolution.Owned !! node.resolution.Owned
      modifies resolution, resolution.Owned
      ensures resolution.Valid() && resolution.Owned <= old(resolution.Owned) + node.resolution.Owned
      ensures resolution.View() ==
        if ok then Merged(old(resolution.View()), old(node.resolution.View())) else old(resolution.View())
    {
      if ok {
        resolution.AppendData(node.resolution);
      }
    }

    /** The goroutine of one dependency. */
    method ResolveAndCombine(d: Key, scope: S)
      requires ValidOracle(oracle, universe) && resolution.Valid()
      modifies resolution, resolution.Owned
      ensures resolution.Valid() && fresh(resolution.Owned - old(resolution.Owned))
      ensures var w := NodeWalk.ResolveDependency(oracle, universe, d, scope);
        resolution.View() == if w.end == Completed then Merged(old(resolution.View()), w.m) else old(resolution.View())
    {
      ghost var m := resolution.View();
      var node, ok := ResolveDependency(d, scope);
      assert resolution.View() == m;
      CombineData(node, ok);
    }

    /** All dependencies, in any order of completion: the common resolution is the merge of those that resolve. */
    method ResolveAllDependencies(dependencies: map<Key, S>) returns (ghost order: seq<Key>)
      requires ValidOracle(oracle, universe) && resolution.Valid() && resolution.View() == map[]
      modifies resolution, resolution.Owned
      ensures resolution.Valid()
      ensures IsOrderOf(order, dependencies.Keys)
      ensures resolution.View() == MergeAll(Resolutions(oracle, universe, dependencies, order))
    {
      var todo := dependencies.Keys;
      order := [];
      while todo != {}
        invariant todo <= dependencies.Keys && IsOrderOf(order, dependencies.Keys - todo)
        invariant resolution.Valid() && fresh(resolution.Owned - old(resolution.Owned))
        invariant resolution.View() == MergeAll(Resolutions(oracle, universe, dependencies, order))
      {
        var d :| d in todo;
        todo := todo - {d};
        MergeNext(oracle, universe, dependencies, order, d);
        ResolveAndCombine(d, dependencies[d]);
        order := order + [d];
      }
    }
  }

  /** Each key once. */
  ghost predicate IsOrderOf(order: seq<Key>, keys: set<Key>) {
    (forall i, j :: 0 <= i < j < |order| ==> order[i] != order[j]) && forall k :: k in order <==> k in keys
  }

  /** The resolutions of the dependencies that resolve. */
  ghost function Resolutions<S(!new)>(o: Oracle<S>, universe: set<Key>, dependencies: map<Key, S>, order: seq<Key>): seq<StateMap>
    requires ValidOracle(o, universe) && forall d :: d in order ==> d in dependencies
  {
    if order == [] then []
    else
      var d := order[|order| - 1];
      var w := NodeWalk.ResolveDependency(o, universe, d, dependencies[d]);
      Resolutions(o, universe, dependencies, order[..|order| - 1]) + if w.end == Completed then [w.m] else []
  }

  lemma MergeNext<S(!new)>(o: Oracle<S>, universe: set<Key>, dependencies: map<Key, S>, order: seq<Key>, d: Key)
    requires ValidOracle(o, universe) && (forall e :: e in order ==> e in dependencies) && d in dependencies
    ensures var w := NodeWalk.ResolveDependency(o, universe, d, dependencies[d]);
      var m := MergeAll(Resolutions(o, universe, dependencies, order));
      MergeAll(Resolutions(o, universe, dependencies, order + [d])) == if w.end == Completed then Merged(m, w.m) else m
  {
    assert (order + [d])[..|order|] == order;
    var rs, w := Resolutions(o, universe, dependencies, order), NodeWalk.ResolveDependency(o, universe, d, dependencies[d]);
    if w.end == Completed {
      assert Resolutions(o, universe, dependencies, order + [d]) == rs + [w.m];
      assert (rs + [w.m])[..|rs|] == rs;
    } else {
      assert Resolutions(o, universe, dependencies, order + [d]) == rs;
    }
  }
}

/** The desired state that the resolver computes has what the comparison and the apply need of it. */
module DesiredState {
  import opened Prelude
  import opened ComponentKey
  import opened Instances
  import opened Resolution
  import opened Merge
  import opened NodeWalk
  import opened WalkShapes
  import opened Resolver
  import DiffSpec
  import Retry

  ghost predicate Closed(m: StateMap) {
    WellKeyed(m) && EdgesInside(m) && ParentsPointToComponents(m) && ParentClosed(m)
  }

  ghost predicate NoErrors(m: StateMap) {
    forall k :: k in m ==> !m[k].error
  }

  // ---- What any merge keeps.

  /** The consumers of a merged instance are those it has in any of the resolutions, errors or not. */
  lemma {:induction false} MergedConsumers(rs: seq<StateMap>, k: Key, d: Key)
    ensures d in DiffSpec.Consumers(Lookup(MergeAll(rs), k)) <==> exists r :: r in rs && d in DiffSpec.Consumers(Lookup(r, k))
  {
    if rs != [] {
      var front, last := rs[..|rs| - 1], rs[|rs| - 1];
      assert forall r :: r in rs <==> r in front || r == last;
      MergedConsumers(front, k, d);
      assert Lookup(MergeAll(rs), k) == MergedEntry(Lookup(MergeAll(front), k), Lookup(last, k));
    }
  }

  /** Errors are never taken back. */
  lemma NoErrorsBefore(m: StateMap, n: StateMap)
    requires NoErrors(Merged(m, n))
    ensures NoErrors(m)
  {
    forall k | k in m ensures !m[k].error {
      assert k in Merged(m, n);
    }
  }

  /** The entries of an error-free merge of two resolutions. */
  lemma EntryOfBoth(m: StateMap, n: StateMap, k: Key)
    requires NoErrors(Merged(m, n)) && k in Merged(m, n)
    ensures k in m || k in n
    ensures Merged(m, n)[k].cik == if k in m then m[k].cik else n[k].cik
    ensures Merged(m, n)[k].edgesOut == (if k in m then m[k].edgesOut else {}) + (if k in n then n[k].edgesOut else {})
    ensures Merged(m, n)[k].dependencyKeys.Keys
         == (if k in m then m[k].dependencyKeys.Keys else {}) + (if k in n then n[k].dependencyKeys.Keys else {})
  {
    assert !Merged(m, n)[k].error;
  }

  lemma MergedClosed(m: StateMap, n: StateMap)
    requires Closed(m) && Closed(n) && NoErrors(Merged(m, n))
    ensures Closed(Merged(m, n))
  {
    var s := Merged(m, n);
    forall k | k in s
      ensures s[k].cik.GetKey() == k && Plain(s[k].cik.componentName) && s[k].edgesOut <= s.Keys
      ensures !s[k].cik.IsService() ==> ParentKey(s[k]) in s && k in s[ParentKey(s[k])].edgesOut
      ensures forall d :: d in s[k].dependencyKeys ==> ParentKey(s[k]) in s && d in s[ParentKey(s[k])].dependencyKeys
    {
      EntryOfBoth(m, n, k);
      if k in m && k in n {
        ParentDetermined(m[k].cik, n[k].cik);
      }
      var p := ParentKey(s[k]);
      if p in s {
        EntryOfBoth(m, n, p);
      }
    }
  }

  /** An error-free merge of closed resolutions is closed. */
  lemma {:induction false} MergeKeepsClosure(rs: seq<StateMap>)
    requires NoErrors(MergeAll(rs)) && forall r :: r in rs ==> Closed(r)
    ensures Closed(MergeAll(rs))
  {
    if rs != [] {
      var front, last := rs[..|rs| - 1], rs[|rs| - 1];
      assert last in rs && forall r :: r in front ==> r in rs;
      NoErrorsBefore(MergeAll(front), last);
      MergeKeepsClosure(front);
      MergedClosed(MergeAll(front), last);
    }
  }

  /** Edges that lead to lower ranks in each resolution do so in their merge. */
  lemma {:induction false} MergeKeepsDescent(rs: seq<StateMap>, level: Key -> nat)
    requires forall r :: r in rs ==> WellKeyed(r) && EdgesDescend(level, r)
    ensures WellKeyed(MergeAll(rs)) && EdgesDescend(level, MergeAll(rs))
  {
    if rs != [] {
      var front, last := rs[..|rs| - 1], rs[|rs| - 1];
      assert last in rs && forall r :: r in front ==> r in rs;
      MergeKeepsDescent(front, level);
      MergedDescends(MergeAll(front), last, level);
    }
  }

  lemma MergedDescends(m: StateMap, n: StateMap, level: Key -> nat)
    requires WellKeyed(m) && EdgesDescend(level, m) && WellKeyed(n) && EdgesDescend(level, n)
    ensures WellKeyed(Merged(m, n)) && EdgesDescend(level, Merged(m, n))
  {
    var s := Merged(m, n);
    forall k | k in s ensures s[k].cik.GetKey() == k && Plain(s[k].cik.componentName) {
      SameRank(m, n, level, k);
    }
    forall k, e | k in s && e in s[k].edgesOut ensures e in s && RankOf(level, s[e], e) < RankOf(level, s[k], k) {
      SameRank(m, n, level, k);
      if k in m && e in m[k].edgesOut {
        SameRank(m, n, level, e);
      } else {
        assert e in n[k].edgesOut;
        SameRank(m, n, level, e);
      }
    }
  }

  /** The rank of an instance depends on its key alone. */
  lemma SameRank(m: StateMap, n: StateMap, level: Key -> nat, k: Key)
    requires WellKeyed(m) && WellKeyed(n) && (k in m || k in n)
    ensures var s := Merged(m, n);
      && k in s && s[k].cik == (if k in m then m[k].cik else n[k].cik)
      && (k in m ==> RankOf(level, s[k], k) == RankOf(level, m[k], k))
      && (k in n ==> RankOf(level, s[k], k) == RankOf(level, n[k], k))
      && s[k].edgesOut <= (if k in m then m[k].edgesOut else {}) + (if k in n then n[k].edgesOut else {})
  {
    if k in m && k in n {
      ParentDetermined(m[k].cik, n[k].cik);
    }
  }

  // ---- The resolutions of all dependencies.

  ghost predicate IsResolution<S(!new)>(o: Oracle<S>, universe: set<Key>, dependencies: map<Key, S>, d: Key, r: StateMap)
    requires ValidOracle(o, universe)
  {
    && d in dependencies
    && var w := NodeWalk.ResolveDependency(o, universe, d, dependencies[d]);
    w.end == Completed && w.m == r
  }

  lemma {:induction false} ResolutionFrom<S(!new)>(o: Oracle<S>, universe: set<Key>, dependencies: map<Key, S>, order: seq<Key>, r: StateMap)
    returns (d: Key)
    requires ValidOracle(o, universe) && (forall d :: d in order ==> d in dependencies)
    requires r in Resolutions(o, universe, dependencies, order)
    ensures d in order && IsResolution(o, universe, dependencies, d, r)
  {
    var front := order[..|order| - 1];
    d := order[|order| - 1];
    if r in Resolutions(o, universe, dependencies, front) {
      d := ResolutionFrom(o, universe, dependencies, front, r);
    }
  }

  lemma {:induction false} ResolutionTo<S(!new)>(o: Oracle<S>, universe: set<Key>, dependencies: map<Key, S>, order: seq<Key>, d: Key)
    requires ValidOracle(o, universe) && (forall e :: e in order ==> e in dependencies) && d in order
    requires NodeWalk.ResolveDependency(o, universe, d, dependencies[d]).end == Completed
    ensures NodeWalk.ResolveDependency(o, universe, d, dependencies[d]).m in Resolutions(o, universe, dependencies, order)
  {
    if order[|order| - 1] != d {
      assert d in order[..|order| - 1];
      ResolutionTo(o, universe, dependencies, order[..|order| - 1], d);
    }
  }

  /** The dependency that an instance of a resolution comes from, and what is known about the instance. */
  lemma InstanceFrom<S(!new)>(o: Oracle<S>, universe: set<Key>, dependencies: map<Key, S>, order: seq<Key>, k: Key, x: Instance)
    returns (d: Key)
    requires ValidOracle(o, universe) && IsOrderOf(order, dependencies.Keys)
    requires x in At(Resolutions(o, universe, dependencies, order), k)
    ensures d in dependencies && x.dependencyKeys.Keys <= {d} && !x.error
    ensures NodeWalk.ResolveDependency(o, universe, d, dependencies[d]).end == Completed
    ensures k in NodeWalk.ResolveDependency(o, universe, d, dependencies[d]).m
    ensures x == NodeWalk.ResolveDependency(o, universe, d, dependencies[d]).m[k]
    ensures x.cik.GetKey() == k && Plain(x.cik.componentName) && Settled(o, x)
  {
    AtMember(Resolutions(o, universe, dependencies, order), k, x);
    var r: StateMap :| r in Resolutions(o, universe, dependencies, order) && k in r && r[k] == x;
    d := ResolutionFrom(o, universe, dependencies, order, r);
    ResolvedIsSettled(o, universe, d, dependencies[d], k);
  }

  /** Instances of the same key have their parameters from the same templates, so these are empty in all of them or in none. */
  lemma SettledAlike<S(!new)>(o: Oracle<S>, x: Instance, y: Instance)
    requires Settled(o, x) && Settled(o, y) && x.cik.GetKey() == y.cik.GetKey()
    requires Plain(x.cik.componentName) && Plain(y.cik.componentName)
    ensures SameEmptiness(x, y) && x.isCode == y.isCode
  {
    ParentDetermined(x.cik, y.cik);
  }

  lemma InstancesAlike<S(!new)>(o: Oracle<S>, universe: set<Key>, dependencies: map<Key, S>, order: seq<Key>, k: Key, x: Instance, y: Instance)
    requires ValidOracle(o, universe) && IsOrderOf(order, dependencies.Keys)
    requires x in At(Resolutions(o, universe, dependencies, order), k) && y in At(Resolutions(o, universe, dependencies, order), k)
    ensures !x.error && SameEmptiness(x, y) && SameDepths(x, y)
  {
    var d := InstanceFrom(o, universe, dependencies, order, k, x);
    var d' := InstanceFrom(o, universe, dependencies, order, k, y);
    SettledAlike(o, x, y);
    forall e | e in x.dependencyKeys && e in y.dependencyKeys ensures x.dependencyKeys[e] == y.dependencyKeys[e] {
      assert e == d == d';
    }
  }

  /** What the resolver hands to the merge can always be merged in any order. */
  lemma ResolutionsMergeable<S(!new)>(o: Oracle<S>, universe: set<Key>, dependencies: map<Key, S>, order: seq<Key>)
    requires ValidOracle(o, universe) && IsOrderOf(order, dependencies.Keys)
    ensures Mergeable(Resolutions(o, universe, dependencies, order))
  {
    var rs := Resolutions(o, universe, dependencies, order);
    forall r: StateMap, k | r in rs && k in r ensures r[k].cik.GetKey() == k && Plain(r[k].cik.componentName) {
      var d := ResolutionFrom(o, universe, dependencies, order, r);
      ResolvedIsSettled(o, universe, d, dependencies[d], k);
    }
    forall k, x, y | x in At(rs, k) && y in At(rs, k) ensures !x.error && SameEmptiness(x, y) && SameDepths(x, y) {
      InstancesAlike(o, universe, dependencies, order, k, x, y);
    }
    forall k ensures Alike(At(rs, k)) {
    }
  }

  /**
   The order in which the goroutines of the dependencies complete does not matter: the desired state has the
   same instances, consumers with depths, and errors, and without error the same edges and parameters.
   */
  lemma CompletionOrderIrrelevant<S(!new)>(o: Oracle<S>, universe: set<Key>, dependencies: map<Key, S>, order: seq<Key>, order': seq<Key>)
    requires ValidOracle(o, universe) && IsOrderOf(order, dependencies.Keys) && IsOrderOf(order', dependencies.Keys)
    ensures var m, m' := MergeAll(Resolutions(o, universe, dependencies, order)), MergeAll(Resolutions(o, universe, dependencies, order'));
      m.Keys == m'.Keys && forall k :: k in m ==> SameUpToOrder(m[k], m'[k])
  {
    var rs, rs' := Resolutions(o, universe, dependencies, order), Resolutions(o, universe, dependencies, order');
    ResolutionsMergeable(o, universe, dependencies, order);
    forall r ensures r in rs <==> r in rs' {
      if r in rs {
        var d := ResolutionFrom(o, universe, dependencies, order, r);
        ResolutionTo(o, universe, dependencies, order', d);
      }
      if r in rs' {
        var d := ResolutionFrom(o, universe, dependencies, order', r);
        ResolutionTo(o, universe, dependencies, order, d);
      }
    }
    MergeOrderIndependent(rs, rs');
  }

  /** Each dependency visits each of its services once without a criteria error. */
  ghost predicate AllVisitsClean<S(!new)>(o: Oracle<S>, universe: set<Key>, dependencies: map<Key, S>)
    requires ValidOracle(o, universe)
  {
    forall d :: d in dependencies ==> EachServiceClean(o, Visits(o, universe, dependencies[d]))
  }

  lemma ResolutionComplete<S(!new)>(o: Oracle<S>, universe: set<Key>, dependencies: map<Key, S>, d: Key, r: StateMap)
    requires ValidOracle(o, universe) && AllVisitsClean(o, universe, dependencies) && IsResolution(o, universe, dependencies, d, r)
    ensures Complete(r, d, RootKey(o, dependencies[d])) && Closed(r)
  {
    ResolvedIsComplete(o, universe, d, dependencies[d]);
    CompleteIsClosed(r, d, RootKey(o, dependencies[d]));
  }

  /**
   The desired state, whatever the order in which the dependencies were resolved: if no instance is in
   conflict, it is closed, and it meets what the comparison and the retries of the enforcer rely on.
   */
  lemma DesiredStateClosed<S(!new)>(o: Oracle<S>, universe: set<Key>, dependencies: map<Key, S>, order: seq<Key>)
    requires ValidOracle(o, universe) && AllVisitsClean(o, universe, dependencies) && IsOrderOf(order, dependencies.Keys)
    requires NoErrors(MergeAll(Resolutions(o, universe, dependencies, order)))
    ensures var m := MergeAll(Resolutions(o, universe, dependencies, order));
      WellKeyed(m) && EdgesInside(m) && ParentClosed(m) && Retry.ServicesWaitForComponents(m)
  {
    var rs := Resolutions(o, universe, dependencies, order);
    var m := MergeAll(rs);
    forall r | r in rs ensures Closed(r) {
      var d := ResolutionFrom(o, universe, dependencies, order, r);
      ResolutionComplete(o, universe, dependencies, d, r);
    }
    MergeKeepsClosure(rs);
    forall k | k in m && ParentKey(m[k]) != k ensures ParentKey(m[k]) in m && k in m[ParentKey(m[k])].edgesOut {
      assert m[k].cik.GetKey() == k;
    }
  }

  /** The desired edges lead to lower ranks, if the calls between services do. */
  lemma DesiredStateDescends<S(!new)>(o: Oracle<S>, universe: set<Key>, dependencies: map<Key, S>, order: seq<Key>, level: Key -> nat)
    requires ValidOracle(o, universe) && IsOrderOf(order, dependencies.Keys) && Stratified(o, level)
    ensures EdgesDescend(level, MergeAll(Resolutions(o, universe, dependencies, order)))
  {
    var rs := Resolutions(o, universe, dependencies, order);
    ResolutionsMergeable(o, universe, dependencies, order);
    forall r | r in rs ensures WellKeyed(r) && EdgesDescend(level, r) {
      var d := ResolutionFrom(o, universe, dependencies, order, r);
      StratifiedDescends(o, universe, d, dependencies[d], level);
    }
    MergeKeepsDescent(rs, level);
  }

  // ---- What is reported for a dependency.

  /** The walk of the dependency succeeds, and its visit to the root meets no criteria error. */
  ghost predicate RootRecorded<S(!new)>(o: Oracle<S>, universe: set<Key>, d: Key, scope: S)
    requires ValidOracle(o, universe)
  {
    && NodeWalk.ResolveDependency(o, universe, d, scope).end == Completed
    && Visits(o, universe, scope) != [] && NoCriteriaError(o, RootVisit(o, universe, scope).asked)
  }

  /** The root instances of a resolution: that of its own dependency, if it is recorded at all. */
  lemma RootOfResolution<S(!new)>(o: Oracle<S>, universe: set<Key>, d': Key, scope: S, d: Key, k: Key)
    requires ValidOracle(o, universe) && NodeWalk.ResolveDependency(o, universe, d', scope).end == Completed
    ensures IsRootOf(NodeWalk.ResolveDependency(o, universe, d', scope).m, k, d)
       <==> d == d' && k == RootKey(o, scope) && RootRecorded(o, universe, d', scope)
  {
    var m := NodeWalk.ResolveDependency(o, universe, d', scope).m;
    ResolvedIsGood(o, universe, d', scope);
    if IsRootOf(m, k, d) {
      assert EntryFits(m, d', RootKey(o, scope), k);
      RootRecordedIffNoCriteriaError(o, universe, d', scope);
    }
  }

  /**
   Root uniqueness: the only service instance that the merged resolution reports for a dependency is the
   root of its own walk, so GetDependencyResolution has one possible answer. It reports the dependency as
   resolved if and only if the walk succeeded, no criteria error occurred in the visit to the root, and none
   of the instances that the dependency holds is in conflict.
   */
  lemma DependencyHasOneRoot<S(!new)>(o: Oracle<S>, universe: set<Key>, dependencies: map<Key, S>, order: seq<Key>, d: Key)
    requires ValidOracle(o, universe) && IsOrderOf(order, dependencies.Keys) && d in dependencies
    ensures var rs := Resolutions(o, universe, dependencies, order);
      && (forall k :: IsRootOf(MergeAll(rs), k, d) ==> k == RootKey(o, dependencies[d]))
      && (IsResolved(MergeAll(rs), d) <==> RootRecorded(o, universe, d, dependencies[d]) && !exists k :: UsesConflict(rs, d, k))
  {
    var rs, root := Resolutions(o, universe, dependencies, order), RootKey(o, dependencies[d]);
    ResolutionsMergeable(o, universe, dependencies, order);
    ResolvedIffNoConflict(rs, d);
    forall k ensures HasRoot(rs, d, k) <==> k == root && RootRecorded(o, universe, d, dependencies[d]) {
      RootsOfAll(o, universe, dependencies, order, d, k);
    }
    forall k ensures IsRootOf(MergeAll(rs), k, d) <==> HasRoot(rs, d, k) {
      RootMerged(rs, k, d);
    }
    assert RootRecorded(o, universe, d, dependencies[d]) ==> HasRoot(rs, d, root);
  }

  lemma RootsOfAll<S(!new)>(o: Oracle<S>, universe: set<Key>, dependencies: map<Key, S>, order: seq<Key>, d: Key, k: Key)
    requires ValidOracle(o, universe) && IsOrderOf(order, dependencies.Keys) && d in dependencies
    ensures HasRoot(Resolutions(o, universe, dependencies, order), d, k)
       <==> k == RootKey(o, dependencies[d]) && RootRecorded(o, universe, d, dependencies[d])
  {
    var rs := Resolutions(o, universe, dependencies, order);
    if HasRoot(rs, d, k) {
      var r: StateMap :| r in rs && IsRootOf(r, k, d);
      var d' := ResolutionFrom(o, universe, dependencies, order, r);
      RootOfResolution(o, universe, d', dependencies[d'], d, k);
    }
    if RootRecorded(o, universe, d, dependencies[d]) && k == RootKey(o, dependencies[d]) {
      RootOfResolution(o, universe, d, dependencies[d], d, k);
      ResolutionTo(o, universe, dependencies, order, d);
    }
  }
}

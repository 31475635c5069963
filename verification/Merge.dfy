/**
 Merging the resolutions of all dependencies. The goroutines that resolve them finish in any order,
 and each merges its own resolution into the common one.
 */
module Merge {
  import opened Prelude
  import opened ComponentKey
  import opened Instances
  import opened Resolution

  /** The common resolution after the given resolutions have been merged, in this order. */
  function MergeAll(rs: seq<StateMap>): StateMap {
    if rs == [] then map[] else Merged(MergeAll(rs[..|rs| - 1]), rs[|rs| - 1])
  }

  /** Two instances of the same key that can share one instance. */
  predicate Compatible(x: Instance, y: Instance) {
    x.isCode == y.isCode && x.discovery.DeepEqual(y.discovery) && x.codeParams.DeepEqual(y.codeParams)
  }

  predicate SameEmptiness(x: Instance, y: Instance) {
    x.discovery.Empty() == y.discovery.Empty() && x.codeParams.Empty() == y.codeParams.Empty()
  }

  predicate SameDepths(x: Instance, y: Instance) {
    forall d :: d in x.dependencyKeys && d in y.dependencyKeys ==> x.dependencyKeys[d] == y.dependencyKeys[d]
  }

  /** The instances that the resolutions have for a key, in order. */
  function At(rs: seq<StateMap>, k: Key): seq<Instance> {
    if rs == [] then []
    else At(rs[..|rs| - 1], k) + if k in rs[|rs| - 1] then [rs[|rs| - 1][k]] else []
  }

  lemma {:induction false} AtMember(rs: seq<StateMap>, k: Key, x: Instance)
    ensures x in At(rs, k) <==> exists r: StateMap :: r in rs && k in r && r[k] == x
  {
    if rs != [] {
      var front, last := rs[..|rs| - 1], rs[|rs| - 1];
      assert rs == front + [last];
      AtMember(front, k, x);
    }
  }

  /**
   What the resolver hands to the merge: entries under their own keys and without errors; a dependency has
   one resolution, so there is one depth for it in an instance. Beyond that, instances of the same key agree
   on whether their parameters are empty.
   */
  ghost predicate Mergeable(rs: seq<StateMap>) {
    && (forall r :: r in rs ==> WellKeyed(r))
    && (forall k :: Alike(At(rs, k)))
  }

  ghost predicate Alike(xs: seq<Instance>) {
    && (forall x :: x in xs ==> !x.error)
    && (forall x, y :: x in xs && y in xs ==> SameEmptiness(x, y) && SameDepths(x, y))
  }

  // ---- What becomes of the instances of one key.

  ghost predicate Conflict(xs: seq<Instance>) {
    exists x, y :: x in xs && y in xs && !Compatible(x, y)
  }

  /** Consumers of the merged instance: those of all instances, at their depths. */
  ghost predicate SumsConsumers(xs: seq<Instance>, v: Instance) {
    && (forall d :: d in v.dependencyKeys ==> exists x :: x in xs && d in x.dependencyKeys)
    && (forall x, d :: x in xs && d in x.dependencyKeys ==> d in v.dependencyKeys && v.dependencyKeys[d] == x.dependencyKeys[d])
  }

  /** Edges of the merged instance: those of all instances. */
  ghost predicate SumsEdges(xs: seq<Instance>, v: Instance) {
    forall e :: e in v.edgesOut <==> exists x :: x in xs && e in x.edgesOut
  }

  ghost predicate Sums(xs: seq<Instance>, v: Instance) {
    && (exists x :: x in xs && v.cik == x.cik)
    && (forall x :: x in xs ==> SameEmptiness(v, x))
    && SumsConsumers(xs, v)
    && (v.error <==> Conflict(xs))
    && (!v.error ==> SumsEdges(xs, v) && forall x :: x in xs ==> Compatible(v, x))
  }

  lemma SumsOne(x: Instance)
    requires !x.error
    ensures Sums([x], x)
  {
  }

  lemma SumsMore(xs: seq<Instance>, y: Instance, v: Instance)
    requires Alike(xs + [y]) && xs != [] && Sums(xs, v)
    ensures Sums(xs + [y], AppendInstance(v, y))
  {
    var w, ys := AppendInstance(v, y), xs + [y];
    SumsConsumersMore(xs, y, v);
    EmptinessMore(xs, y, v);
    ErrorMore(xs, y, v);
    if !w.error {
      EdgesMore(xs, y, v);
    }
    var x :| x in xs && v.cik == x.cik;
    assert x in ys;
  }

  lemma EmptinessMore(xs: seq<Instance>, y: Instance, v: Instance)
    requires Alike(xs + [y]) && xs != [] && forall x :: x in xs ==> SameEmptiness(v, x)
    ensures SameEmptiness(v, y)
    ensures forall x :: x in xs + [y] ==> SameEmptiness(AppendInstance(v, y), x)
  {
    assert xs[0] in xs && xs[0] in xs + [y] && y in xs + [y] && SameEmptiness(xs[0], y);
    AppendError(v, y);
    forall x | x in xs + [y] ensures SameEmptiness(v, x) {
    }
  }

  lemma ErrorMore(xs: seq<Instance>, y: Instance, v: Instance)
    requires xs != [] && SameEmptiness(v, y) && (v.error <==> Conflict(xs))
    requires !v.error ==> forall x :: x in xs ==> Compatible(v, x)
    ensures AppendInstance(v, y).error <==> Conflict(xs + [y])
    ensures !AppendInstance(v, y).error ==> forall x :: x in xs + [y] ==> Compatible(AppendInstance(v, y), x)
  {
    var ys := xs + [y];
    assert forall x :: x in ys <==> x in xs || x == y;
    AppendError(v, y);
    if v.error {
      var x, x' :| x in xs && x' in xs && !Compatible(x, x');
      assert x in ys && x' in ys;
    } else if Compatible(v, y) {
      forall x | x in ys ensures Compatible(v, x) {
      }
    } else {
      assert xs[0] in xs && xs[0] in ys && y in ys && !Compatible(xs[0], y);
    }
  }

  lemma EdgesMore(xs: seq<Instance>, y: Instance, v: Instance)
    requires SumsEdges(xs, v) && SameEmptiness(v, y) && !AppendInstance(v, y).error
    ensures SumsEdges(xs + [y], AppendInstance(v, y))
  {
  }

  lemma SumsConsumersMore(xs: seq<Instance>, y: Instance, v: Instance)
    requires Alike(xs + [y]) && SumsConsumers(xs, v)
    ensures SumsConsumers(xs + [y], AppendInstance(v, y))
  {
    var w, ys := AppendInstance(v, y), xs + [y];
    assert w.dependencyKeys == v.dependencyKeys + y.dependencyKeys;
    forall x, d | x in ys && d in x.dependencyKeys
      ensures d in w.dependencyKeys && w.dependencyKeys[d] == x.dependencyKeys[d]
    {
      assert y in ys && SameDepths(x, y);
    }
    forall d | d in w.dependencyKeys ensures exists x :: x in ys && d in x.dependencyKeys {
      if d in y.dependencyKeys {
        assert y in ys;
      } else {
        var x :| x in xs && d in x.dependencyKeys;
        assert x in ys;
      }
    }
  }

  /** With agreement on emptiness, an instance without error gets one exactly from an incompatible one. */
  lemma AppendError(x: Instance, y: Instance)
    requires SameEmptiness(x, y)
    ensures AppendInstance(x, y).error <==> x.error || !Compatible(x, y)
    ensures SameEmptiness(AppendInstance(x, y), x)
    ensures !AppendInstance(x, y).error ==> Compatible(AppendInstance(x, y), x) && AppendInstance(x, y).edgesOut == x.edgesOut + y.edgesOut
  {
  }

  lemma AlikeFront(xs: seq<Instance>, y: Instance)
    requires Alike(xs + [y])
    ensures Alike(xs) && !y.error
  {
  }

  /** The merged instance of a key, in terms of all the instances it comes from. */
  lemma {:induction false} MergedInstance(rs: seq<StateMap>, k: Key)
    requires Alike(At(rs, k))
    ensures k in MergeAll(rs) <==> At(rs, k) != []
    ensures k in MergeAll(rs) ==> Sums(At(rs, k), MergeAll(rs)[k])
  {
    if rs != [] {
      var front, last := rs[..|rs| - 1], rs[|rs| - 1];
      assert Lookup(MergeAll(rs), k) == MergedEntry(Lookup(MergeAll(front), k), Lookup(last, k));
      if k in last {
        assert At(rs, k) == At(front, k) + [last[k]];
        AlikeFront(At(front, k), last[k]);
        MergedInstance(front, k);
        SumsNext(At(front, k), last[k], Lookup(MergeAll(front), k));
      } else {
        assert At(rs, k) == At(front, k);
        MergedInstance(front, k);
      }
    }
  }

  lemma SumsNext(xs: seq<Instance>, y: Instance, v: Option<Instance>)
    requires Alike(xs + [y]) && (v.Some? <==> xs != []) && (v.Some? ==> Sums(xs, v.value))
    ensures Sums(xs + [y], MergedEntry(v, Some(y)).value)
  {
    if v.Some? {
      SumsMore(xs, y, v.value);
    } else {
      assert y in xs + [y];
      assert xs + [y] == [y];
      SumsOne(y);
    }
  }

  // ---- Order independence.

  ghost predicate SameElements<T(!new)>(xs: seq<T>, ys: seq<T>) {
    forall x :: x in xs <==> x in ys
  }

  lemma SameAt(rs: seq<StateMap>, rs': seq<StateMap>, k: Key)
    requires SameElements(rs, rs')
    ensures SameElements(At(rs, k), At(rs', k))
  {
    forall x ensures x in At(rs, k) <==> x in At(rs', k) {
      AtMember(rs, k, x);
      AtMember(rs', k, x);
    }
  }

  /** What the merged instances of a key have in common, whatever the order. */
  ghost predicate SameUpToOrder(x: Instance, y: Instance) {
    && x.dependencyKeys == y.dependencyKeys && x.error == y.error
    && (!x.error ==> Compatible(x, y) && x.edgesOut == y.edgesOut)
  }

  /**
   Merge order independence: the same resolutions in any order, even with repetitions, give the same
   instances, consumers with depths and error flags; without error also the same edges and parameters.
   */
  lemma MergeOrderIndependent(rs: seq<StateMap>, rs': seq<StateMap>)
    requires Mergeable(rs) && SameElements(rs, rs')
    ensures MergeAll(rs).Keys == MergeAll(rs').Keys
    ensures forall k :: k in MergeAll(rs) ==> SameUpToOrder(MergeAll(rs)[k], MergeAll(rs')[k])
  {
    forall k
      ensures k in MergeAll(rs) <==> k in MergeAll(rs')
      ensures k in MergeAll(rs) && k in MergeAll(rs') ==> SameUpToOrder(MergeAll(rs)[k], MergeAll(rs')[k])
    {
      MergedBothWays(rs, rs', k);
    }
  }

  lemma MergedBothWays(rs: seq<StateMap>, rs': seq<StateMap>, k: Key)
    requires Alike(At(rs, k)) && SameElements(rs, rs')
    ensures k in MergeAll(rs) <==> k in MergeAll(rs')
    ensures k in MergeAll(rs) && k in MergeAll(rs') ==> SameUpToOrder(MergeAll(rs)[k], MergeAll(rs')[k])
  {
    SameAt(rs, rs', k);
    var xs, ys := At(rs, k), At(rs', k);
    MergedInstance(rs, k);
    MergedInstance(rs', k);
    assert xs != [] ==> xs[0] in ys;
    assert ys != [] ==> ys[0] in xs;
    if k in MergeAll(rs) {
      SumsAgree(xs, ys, MergeAll(rs)[k], MergeAll(rs')[k]);
    }
  }

  lemma SumsAgree(xs: seq<Instance>, ys: seq<Instance>, v: Instance, w: Instance)
    requires SameElements(xs, ys) && xs != [] && Sums(xs, v) && Sums(ys, w)
    ensures SameUpToOrder(v, w)
  {
  }

  // ---- What the merge means for the dependencies.

  /** The dependency is resolved, as GetDependencyResolution reports it. */
  ghost predicate IsResolved(m: StateMap, d: Key) {
    !HasErrors(m, d) && exists k :: IsRootOf(m, k, d)
  }

  /** The dependency uses an instance that is in conflict. */
  ghost predicate UsesConflict(rs: seq<StateMap>, d: Key, k: Key) {
    Conflict(At(rs, k)) && exists x :: x in At(rs, k) && d in x.dependencyKeys
  }

  ghost predicate HasRoot(rs: seq<StateMap>, d: Key, k: Key) {
    exists r: StateMap :: r in rs && IsRootOf(r, k, d)
  }

  /** A conflict on an instance un-resolves every dependency on it, and nothing else does. */
  lemma ResolvedIffNoConflict(rs: seq<StateMap>, d: Key)
    requires Mergeable(rs)
    ensures IsResolved(MergeAll(rs), d) <==> (exists k :: HasRoot(rs, d, k)) && !exists k :: UsesConflict(rs, d, k)
  {
    var m := MergeAll(rs);
    forall k ensures IsRootOf(m, k, d) <==> HasRoot(rs, d, k) {
      RootMerged(rs, k, d);
    }
    forall k ensures (k in m && d in m[k].dependencyKeys && m[k].error) <==> UsesConflict(rs, d, k) {
      ErrorMerged(rs, k, d);
    }
    if i :| HasRoot(rs, d, i) {
      assert IsRootOf(m, i, d);
    }
    if i :| UsesConflict(rs, d, i) {
      assert i in m && d in m[i].dependencyKeys && m[i].error;
    }
  }

  lemma ErrorMerged(rs: seq<StateMap>, k: Key, d: Key)
    requires Alike(At(rs, k))
    ensures var m := MergeAll(rs); (k in m && d in m[k].dependencyKeys && m[k].error) <==> UsesConflict(rs, d, k)
  {
    MergedInstance(rs, k);
    if k in MergeAll(rs) {
      ErrorOfSum(At(rs, k), MergeAll(rs)[k], d);
    }
  }

  lemma ErrorOfSum(xs: seq<Instance>, v: Instance, d: Key)
    requires Sums(xs, v)
    ensures d in v.dependencyKeys && v.error <==> Conflict(xs) && exists x :: x in xs && d in x.dependencyKeys
  {
  }

  /** All instances of a key are services, or none is. */
  lemma SameKind(rs: seq<StateMap>, k: Key, x: Instance, y: Instance)
    requires Mergeable(rs) && x in At(rs, k) && y in At(rs, k)
    ensures x.cik.IsService() == y.cik.IsService()
  {
    AtMember(rs, k, x);
    AtMember(rs, k, y);
    ParentDetermined(x.cik, y.cik);
  }

  predicate RootInstance(x: Instance, d: Key) {
    d in x.dependencyKeys && x.dependencyKeys[d] == 0 && x.cik.IsService()
  }

  lemma RootMerged(rs: seq<StateMap>, k: Key, d: Key)
    requires Mergeable(rs)
    ensures IsRootOf(MergeAll(rs), k, d) <==> HasRoot(rs, d, k)
  {
    assert Alike(At(rs, k));
    MergedInstance(rs, k);
    if HasRoot(rs, d, k) {
      var r: StateMap :| r in rs && IsRootOf(r, k, d);
      AtMember(rs, k, r[k]);
      RootFromOne(rs, k, d, MergeAll(rs)[k], r[k]);
    }
    if IsRootOf(MergeAll(rs), k, d) {
      var x := RootToOne(rs, k, d, MergeAll(rs)[k]);
      AtMember(rs, k, x);
      var r: StateMap :| r in rs && k in r && r[k] == x;
      assert IsRootOf(r, k, d);
    }
  }

  lemma RootFromOne(rs: seq<StateMap>, k: Key, d: Key, v: Instance, x: Instance)
    requires Mergeable(rs) && Sums(At(rs, k), v) && x in At(rs, k) && RootInstance(x, d)
    ensures RootInstance(v, d)
  {
    var y :| y in At(rs, k) && v.cik == y.cik;
    SameKind(rs, k, x, y);
  }

  lemma RootToOne(rs: seq<StateMap>, k: Key, d: Key, v: Instance) returns (x: Instance)
    requires Mergeable(rs) && Sums(At(rs, k), v) && RootInstance(v, d)
    ensures x in At(rs, k) && RootInstance(x, d)
  {
    x :| x in At(rs, k) && d in x.dependencyKeys;
    var y :| y in At(rs, k) && v.cik == y.cik;
    SameKind(rs, k, x, y);
  }

  // ---- Without agreement on emptiness.

  /** Parameters that can be merged after p without a conflict: empty ones are overwritten, others have to be repeated. */
  predicate Follows(p: Params, q: Params) {
    p.Empty() || q == p
  }

  predicate Agrees(x: Instance, y: Instance) {
    x.isCode == y.isCode && Follows(x.discovery, y.discovery) && Follows(x.codeParams, y.codeParams)
  }

  ghost predicate InAgreement(xs: seq<Instance>) {
    forall i, j :: 0 <= i < j < |xs| ==> Agrees(xs[i], xs[j])
  }

  /** The parameters recorded last: those that are not empty, if there are any. */
  predicate Retains(x: Instance, v: Instance) {
    && x.isCode == v.isCode
    && (x.discovery.Empty() || x.discovery == v.discovery)
    && (x.codeParams.Empty() || x.codeParams == v.codeParams)
  }

  ghost predicate RetainsAll(xs: seq<Instance>, v: Instance) {
    && (forall x :: x in xs ==> Retains(x, v))
    && (v.discovery.Empty() || exists x :: x in xs && x.discovery == v.discovery)
    && (v.codeParams.Empty() || exists x :: x in xs && x.codeParams == v.codeParams)
  }

  /**
   Any number of instances of a key, merged in this order: there is an error exactly if one does not agree with
   a later one. So it depends on the order exactly as far as empty parameters come before or after others.
   */
  lemma {:induction false} MergeErrorIff(rs: seq<StateMap>, k: Key)
    requires forall x :: x in At(rs, k) ==> !x.error
    ensures k in MergeAll(rs) <==> At(rs, k) != []
    ensures k in MergeAll(rs) ==>
      (MergeAll(rs)[k].error <==> !InAgreement(At(rs, k))) && (!MergeAll(rs)[k].error ==> RetainsAll(At(rs, k), MergeAll(rs)[k]))
  {
    if rs != [] {
      var front, last := rs[..|rs| - 1], rs[|rs| - 1];
      assert Lookup(MergeAll(rs), k) == MergedEntry(Lookup(MergeAll(front), k), Lookup(last, k));
      assert forall x :: x in At(front, k) ==> x in At(rs, k);
      MergeErrorIff(front, k);
      if k in last {
        assert last[k] in At(rs, k);
        if k in MergeAll(front) {
          AgreementNext(At(front, k), last[k], MergeAll(front)[k]);
        } else {
          assert At(rs, k) == [last[k]];
        }
      }
    }
  }

  lemma AgreementNext(xs: seq<Instance>, y: Instance, v: Instance)
    requires xs != [] && !y.error && (v.error <==> !InAgreement(xs)) && (!v.error ==> RetainsAll(xs, v))
    ensures var w := AppendInstance(v, y);
      (w.error <==> !InAgreement(xs + [y])) && (!w.error ==> RetainsAll(xs + [y], w))
  {
    var w, ys := AppendInstance(v, y), xs + [y];
    AgreementMore(xs, y);
    if !v.error {
      assert xs[0] in xs;
      assert Agrees(v, y) <==> forall x :: x in xs ==> Agrees(x, y);
      if !w.error {
        assert forall x :: x in ys <==> x in xs || x == y;
      }
    }
  }

  lemma AgreementMore(xs: seq<Instance>, y: Instance)
    ensures InAgreement(xs + [y]) <==> InAgreement(xs) && forall x :: x in xs ==> Agrees(x, y)
  {
    var ys := xs + [y];
    if InAgreement(ys) {
      assert forall i :: 0 <= i < |xs| ==> ys[i] == xs[i];
      forall i, j | 0 <= i < j < |xs| ensures Agrees(xs[i], xs[j]) {
        assert Agrees(ys[i], ys[j]);
      }
      forall x | x in xs ensures Agrees(x, y) {
        var i :| 0 <= i < |xs| && xs[i] == x;
        assert Agrees(ys[i], ys[|xs|]);
      }
    }
  }

  // ---- What a conflict leaves behind, and depths.

  /** From the first conflict on nothing is merged any more but the consumers. */
  lemma ConflictStopsMerge(x: Instance, y: Instance)
    requires !x.error && !Agrees(x, y)
    ensures var w := AppendInstance(x, y);
      && w.error && w.cik == x.cik && w.isCode == x.isCode && w.edgesOut == x.edgesOut && w.codeParams == x.codeParams
      && w.dependencyKeys == x.dependencyKeys + y.dependencyKeys && w.endpointsUpToDate == x.endpointsUpToDate
      && w.discovery == if x.isCode == y.isCode && x.discovery.Empty() then y.discovery else x.discovery
  {
  }

  /** The depths at which the instances hold a dependency, in order. */
  function DepthsOf(xs: seq<Instance>, d: Key): seq<int> {
    if xs == [] then []
    else
      var x := xs[|xs| - 1];
      DepthsOf(xs[..|xs| - 1], d) + if d in x.dependencyKeys then [x.dependencyKeys[d]] else []
  }

  /** The depth of a consumer of an entry. */
  function DepthIn(v: Option<Instance>, d: Key): Option<int> {
    Lookup(DependencyKeys(v), d)
  }

  lemma DepthMerged(v: Option<Instance>, y: Instance, d: Key)
    ensures DepthIn(MergedEntry(v, Some(y)), d) == if d in y.dependencyKeys then Some(y.dependencyKeys[d]) else DepthIn(v, d)
  {
  }

  lemma DepthsMore(xs: seq<Instance>, y: Instance, d: Key)
    ensures DepthsOf(xs + [y], d) == DepthsOf(xs, d) + if d in y.dependencyKeys then [y.dependencyKeys[d]] else []
  {
    assert (xs + [y])[..|xs|] == xs;
  }

  /** The last one counts, with or without conflicts. */
  lemma {:induction false} LastDepthCounts(rs: seq<StateMap>, k: Key, d: Key)
    ensures var depths := DepthsOf(At(rs, k), d);
      DepthIn(Lookup(MergeAll(rs), k), d) == if depths == [] then None else Some(depths[|depths| - 1])
  {
    if rs != [] {
      var front, last := rs[..|rs| - 1], rs[|rs| - 1];
      LastDepthCounts(front, k, d);
      assert Lookup(MergeAll(rs), k) == MergedEntry(Lookup(MergeAll(front), k), Lookup(last, k));
      if k in last {
        DepthMerged(Lookup(MergeAll(front), k), last[k], d);
        DepthsMore(At(front, k), last[k], d);
        assert At(rs, k) == At(front, k) + [last[k]];
      } else {
        assert At(rs, k) == At(front, k);
      }
    }
  }
}

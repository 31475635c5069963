/** Calls that fail half-way, and runs of calls: when index and store still agree, and when they no longer do. */
module PolicyRuns {
  import opened Prelude
  import opened Generations
  import opened BoltStore
  import opened PolicyData
  import opened PolicyStore

  // ---- The objects before one that is refused.

  lemma ProperPart(objs: seq<Base>, i: nat)
    requires AllProper(objs) && i <= |objs|
    ensures AllProper(objs[..i]) && AllProper(objs[i..])
  {
    assert forall o :: o in objs[..i] || o in objs[i..] ==> o in objs;
  }

  lemma PrefixOfRest(objs: seq<Base>, i: nat)
    requires 0 < i <= |objs|
    ensures objs[..i][1..] == objs[1..][..i - 1] && objs[1..][i - 1..] == objs[i..] && objs[..i][0] == objs[0]
  {
  }

  lemma UpdateFirst(kinds: set<string>, b: Db, ix: Index, changed: bool, objs: seq<Base>)
    requires ValidBucket(b) && AllProper(objs) && objs != [] && !objs[0].deleted && SaveBase(kinds, b, objs[0]).0.Saved?
    ensures AllProper(objs[1..])
    ensures var (r, b') := SaveBase(kinds, b, objs[0]);
      UpdateObjects(kinds, b, ix, changed, objs)
        == UpdateObjects(kinds, b', if r.updated then Added(ix, objs[0].id, r.obj.gen) else ix, changed || r.updated, objs[1..])
  {
  }

  lemma {:induction false} UpdateSplit(kinds: set<string>, b: Db, ix: Index, changed: bool, objs: seq<Base>, i: nat)
    requires ValidBucket(b) && AllProper(objs) && i <= |objs| && AllProper(objs[..i]) && AllProper(objs[i..])
    requires UpdateObjects(kinds, b, ix, changed, objs[..i]).ok
    ensures var p := UpdateObjects(kinds, b, ix, changed, objs[..i]);
      UpdateObjects(kinds, b, ix, changed, objs) == UpdateObjects(kinds, p.b, p.ix, p.changed, objs[i..])
    decreases i
  {
    if i > 0 {
      PrefixOfRest(objs, i);
      ProperPart(objs, 1);
      ProperPart(objs[1..], i - 1);
      var (r, b') := SaveBase(kinds, b, objs[0]);
      UpdateFirst(kinds, b, ix, changed, objs);
      UpdateFirst(kinds, b, ix, changed, objs[..i]);
      UpdateSplit(kinds, b', if r.updated then Added(ix, objs[0].id, r.obj.gen) else ix, changed || r.updated, objs[1..], i - 1);
    } else {
      assert objs[0..] == objs;
    }
  }

  lemma DeleteFirst(kinds: set<string>, b: Db, ix: Index, changed: bool, objs: seq<Base>)
    requires ValidBucket(b) && AllProper(objs) && objs != []
    requires objs[0].deleted || SaveBase(kinds, b, objs[0].(deleted := true)).0.Saved?
    ensures AllProper(objs[1..])
    ensures var b' := if objs[0].deleted then b else SaveBase(kinds, b, objs[0].(deleted := true)).1;
      DeleteObjects(kinds, b, ix, changed, objs)
        == DeleteObjects(kinds, b', Removed(ix, objs[0].id), changed || At(ix, objs[0].id).Some?, objs[1..])
  {
  }

  lemma {:induction false} DeleteSplit(kinds: set<string>, b: Db, ix: Index, changed: bool, objs: seq<Base>, i: nat)
    requires ValidBucket(b) && AllProper(objs) && i <= |objs| && AllProper(objs[..i]) && AllProper(objs[i..])
    requires DeleteObjects(kinds, b, ix, changed, objs[..i]).ok
    ensures var p := DeleteObjects(kinds, b, ix, changed, objs[..i]);
      DeleteObjects(kinds, b, ix, changed, objs) == DeleteObjects(kinds, p.b, p.ix, p.changed, objs[i..])
    decreases i
  {
    if i > 0 {
      PrefixOfRest(objs, i);
      ProperPart(objs, 1);
      ProperPart(objs[1..], i - 1);
      var b' := if objs[0].deleted then b else SaveBase(kinds, b, objs[0].(deleted := true)).1;
      DeleteFirst(kinds, b, ix, changed, objs);
      DeleteFirst(kinds, b, ix, changed, objs[..i]);
      DeleteSplit(kinds, b', Removed(ix, objs[0].id), changed || At(ix, objs[0].id).Some?, objs[1..], i - 1);
    } else {
      assert objs[0..] == objs;
    }
  }

  // ---- A failed update.

  /** An update does not take the object: it is marked as deleted, or of an unknown kind. */
  predicate Refused(kinds: set<string>, o: Base) {
    o.deleted || o.id.kind !in kinds
  }

  /** The object is in force as it is given. */
  ghost predicate InForceAs(b: Db, o: Base)
    requires ValidBucket(b)
  {
    Current(b, o.id).Some? && Current(b, o.id).value == ToObject(o).(gen := Current(b, o.id).value.gen)
  }

  /** Saving what is in force again changes nothing. */
  lemma SavedAgain(kinds: set<string>, b: Db, o: Base)
    requires ValidBucket(b) && ProperId(o.id) && o.id.kind in kinds && o.gen == LAST_GEN && !o.deleted && InForceAs(b, o)
    ensures var (r, b') := SaveBase(kinds, b, o); r.Saved? && !r.updated && b' == b
  {
  }

  lemma SaveUpdatesIff(kinds: set<string>, b: Db, o: Base)
    requires AllPlain(kinds, [o]) && Room(b, 1)
    ensures ProperId(o.id) && o.id.kind in kinds
    ensures var (r, b') := SaveBase(kinds, b, o);
      r.Saved? && (r.updated <==> !InForceAs(b, o)) && (!r.updated ==> b' == b)
  {
    assert o in [o];
    SavedInForce(kinds, b, o);
    if InForceAs(b, o) {
      SavedAgain(kinds, b, o);
    }
  }

  /** An update of plain objects changes something exactly if not all of them are in force as they are given. */
  lemma {:induction false} UpdateChangesIff(kinds: set<string>, b: Db, ix: Index, objs: seq<Base>)
    requires AllPlain(kinds, objs) && AllProper(objs) && Room(b, |objs|)
    ensures UpdateObjects(kinds, b, ix, false, objs).changed <==> exists o :: o in objs && !InForceAs(b, o)
    decreases |objs|
  {
    if objs != [] {
      var o := objs[0];
      PlainOne(kinds, objs);
      assert forall x :: x in objs <==> x == o || x in objs[1..];
      RoomForOne(b, |objs|);
      SaveUpdatesIff(kinds, b, o);
      var (r, b') := SaveBase(kinds, b, o);
      if r.updated {
        ChangedStays(kinds, b', Added(ix, o.id, r.obj.gen), objs[1..]);
      } else {
        LessRoom(b, |objs|);
        UpdateChangesIff(kinds, b, ix, objs[1..]);
      }
    }
  }

  lemma RoomForOne(b: Db, n: nat)
    requires Room(b, n) && n > 0
    ensures Room(b, 1)
  {
  }

  lemma LessRoom(b: Db, n: nat)
    requires Room(b, n) && n > 0
    ensures Room(b, n - 1)
  {
  }

  /** With the policy data as they were, agreement is a matter of the index. */
  lemma SamePolicy(b: Db, b': Db)
    requires Initialised(b) && ValidBucket(b') && Last(b', POLICY_KEY) == Last(b, POLICY_KEY)
    ensures Initialised(b') <==> IndexAgrees(b', Last(b, POLICY_KEY).value.content.objects)
  {
  }

  /**
   An update that fails at an object that is refused, after plain ones: the policy data stay, what is in force
   is overridden by the objects before, and index and store agree afterwards if and only if each of these was
   in force as it is given before the call. Otherwise objects are in force that the policy does not refer to.
   */
  lemma FailedUpdateAgreesIff(kinds: set<string>, b: Db, objs: seq<Base>, i: nat)
    requires AllProper(objs) && i < |objs| && AllPlain(kinds, objs[..i]) && Refused(kinds, objs[i])
    requires Initialised(b) && Room(b, i + 1)
    ensures var (r, b') := Apply(kinds, b, Update(objs));
      && r == Failed && Last(b', POLICY_KEY) == Last(b, POLICY_KEY) && Overridden(b, b', objs[..i])
      && (Initialised(b') <==> forall o :: o in objs[..i] ==> InForceAs(b, o))
  {
    var ix, front := Last(b, POLICY_KEY).value.content.objects, objs[..i];
    ProperPart(objs, i);
    UpdateAgrees(kinds, b, ix, false, front, 1, b, ix);
    UpdateSplit(kinds, b, ix, false, objs, i);
    var p := UpdateObjects(kinds, b, ix, false, front);
    assert objs[i..][0] == objs[i];
    assert UpdateObjects(kinds, b, ix, false, objs) == Progress(false, p.b, p.ix, p.changed);
    LessRoom(b, i + 1);
    UpdateChangesIff(kinds, b, ix, front);
    UnchangedIndex(kinds, b, ix, front);
    SamePolicy(b, p.b);
    AgreesIffUnchanged(p.b, ix, p.ix, p.changed);
  }

  lemma AgreesIffUnchanged(b: Db, ix0: Index, ix: Index, changed: bool)
    requires IndexAgrees(b, ix) && (changed ==> DiffersFrom(ix0, ix)) && (!changed ==> ix == ix0)
    ensures IndexAgrees(b, ix0) <==> !changed
  {
  }

  /** And updating with the same objects again does not bring them into the policy. */
  lemma FailedUpdateLosesObjects(kinds: set<string>, b: Db, objs: seq<Base>, i: nat)
    requires AllProper(objs) && i < |objs| && AllPlain(kinds, objs[..i]) && AllProper(objs[..i]) && Refused(kinds, objs[i])
    requires Initialised(b) && Room(b, i + 1) && DistinctIds(objs[..i])
    ensures var (r, b') := Apply(kinds, b, Update(objs)); Apply(kinds, b', Update(objs[..i])) == (Done(false), b')
  {
    var ix, front := Last(b, POLICY_KEY).value.content.objects, objs[..i];
    ProperPart(objs, i);
    UpdateAgrees(kinds, b, ix, false, front, 1, b, ix);
    UpdateSplit(kinds, b, ix, false, objs, i);
    var p := UpdateObjects(kinds, b, ix, false, front);
    assert objs[i..][0] == objs[i];
    assert UpdateObjects(kinds, b, ix, false, objs) == Progress(false, p.b, p.ix, p.changed);
    UpdatedInForce(kinds, b, ix, false, front, 1);
    AllSavedAgain(kinds, p.b, ix, front);
  }

  predicate DistinctIds(objs: seq<Base>) {
    forall i, j :: 0 <= i < j < |objs| ==> objs[i].id != objs[j].id
  }

  /** After the loop of an update with plain objects of different ids, all of them are in force as they are given. */
  lemma {:induction false} UpdatedInForce(kinds: set<string>, b: Db, ix: Index, changed: bool, objs: seq<Base>, n: nat)
    requires AllPlain(kinds, objs) && AllProper(objs) && Room(b, |objs| + n) && DistinctIds(objs)
    ensures var p := UpdateObjects(kinds, b, ix, changed, objs);
      && (forall o :: o in objs ==> InForceAs(p.b, o))
      && (forall id :: ProperId(id) && !GivenId(objs, id) ==> Current(p.b, id) == Current(b, id))
    decreases |objs|
  {
    if objs != [] {
      var o := objs[0];
      PlainOne(kinds, objs);
      var (r, b') := SaveBase(kinds, b, o);
      SavedInForce(kinds, b, o);
      BaseRoom(kinds, b, o, |objs| - 1 + n);
      AllElsewhere(kinds, b, o);
      UpdatedInForce(kinds, b', if r.updated then Added(ix, o.id, r.obj.gen) else ix, changed || r.updated, objs[1..], n);
      InForceOfBoth(b, b', UpdateObjects(kinds, b, ix, changed, objs).b, objs);
    }
  }

  lemma InForceOfBoth(b: Db, b1: Db, b2: Db, objs: seq<Base>)
    requires objs != [] && AllProper(objs) && DistinctIds(objs) && ValidBucket(b) && ValidBucket(b1) && ValidBucket(b2)
    requires InForceAs(b1, objs[0]) && forall id :: ProperId(id) && id != objs[0].id ==> Current(b1, id) == Current(b, id)
    requires forall o :: o in objs[1..] ==> InForceAs(b2, o)
    requires forall id :: ProperId(id) && !GivenId(objs[1..], id) ==> Current(b2, id) == Current(b1, id)
    ensures forall o :: o in objs ==> InForceAs(b2, o)
    ensures forall id :: ProperId(id) && !GivenId(objs, id) ==> Current(b2, id) == Current(b, id)
  {
    assert forall x :: x in objs <==> x == objs[0] || x in objs[1..];
    assert !GivenId(objs[1..], objs[0].id);
    forall id | ProperId(id) && !GivenId(objs, id) ensures !GivenId(objs[1..], id) && id != objs[0].id {
    }
  }

  lemma {:induction false} AllSavedAgain(kinds: set<string>, b: Db, ix: Index, objs: seq<Base>)
    requires AllPlain(kinds, objs) && AllProper(objs) && ValidBucket(b) && forall o :: o in objs ==> InForceAs(b, o)
    ensures UpdateObjects(kinds, b, ix, false, objs) == Progress(true, b, ix, false)
    decreases |objs|
  {
    if objs != [] {
      PlainOne(kinds, objs);
      assert forall x :: x in objs <==> x == objs[0] || x in objs[1..];
      SavedAgain(kinds, b, objs[0]);
      AllSavedAgain(kinds, b, ix, objs[1..]);
    }
  }

  // ---- A failed deletion.

  /** The loop of a deletion marks the objects; what else is in force stays. */
  lemma {:induction false} MarksOutOfForce(kinds: set<string>, b: Db, ix: Index, changed: bool, objs: seq<Base>, n: nat)
    requires AllPlain(kinds, objs) && AllProper(objs) && Room(b, |objs| + n) && AllKnown(b, objs)
    ensures var p := DeleteObjects(kinds, b, ix, changed, objs);
      && p.ok && Last(p.b, POLICY_KEY) == Last(b, POLICY_KEY) && SameKnown(b, p.b)
      && forall id :: ProperId(id) ==> Current(p.b, id) == if GivenId(objs, id) then None else Current(b, id)
    decreases |objs|
  {
    if objs != [] {
      var o := objs[0];
      PlainOne(kinds, objs);
      assert forall x :: x in objs <==> x == o || x in objs[1..];
      MarkOne(kinds, b, o, |objs| - 1 + n);
      var b' := SaveBase(kinds, b, o.(deleted := true)).1;
      AllKnownRest(b, b', objs);
      MarksOutOfForce(kinds, b', Removed(ix, o.id), changed || At(ix, o.id).Some?, objs[1..], n);
      forall id ensures GivenId(objs, id) <==> id == o.id || GivenId(objs[1..], id) {
      }
    }
  }

  lemma MarkOne(kinds: set<string>, b: Db, o: Base, n: nat)
    requires AllPlain(kinds, [o]) && Room(b, n + 1) && Last(b, KeyOf(o.id)).Some?
    ensures var (r, b') := SaveBase(kinds, b, o.(deleted := true));
      && r.Saved? && Room(b', n) && Last(b', POLICY_KEY) == Last(b, POLICY_KEY) && SameKnown(b, b')
      && forall id :: ProperId(id) ==> Current(b', id) == if id == o.id then None else Current(b, id)
  {
    assert o in [o];
    var d := o.(deleted := true);
    SavedOutOfForce(kinds, b, o);
    BaseRoom(kinds, b, d, n);
    PolicyElsewhere(kinds, b, d);
    AllElsewhere(kinds, b, d);
    KnownStays(kinds, b, d);
  }

  /** A deletion does not take the object: it has never been stored, or is of an unknown kind. */
  ghost predicate Unknown(kinds: set<string>, b: Db, o: Base)
    requires ValidBucket(b)
  {
    !o.deleted && (o.id.kind !in kinds || Last(b, KeyOf(o.id)).None?)
  }

  /**
   A deletion that fails at an object that is unknown, after plain ones that are known: the policy data stay,
   the objects before are out of force, and index and store agree afterwards if and only if all of these were
   out of force before the call. Otherwise the policy still refers to an object that is marked as deleted.
   */
  lemma FailedDeletionAgreesIff(kinds: set<string>, b: Db, objs: seq<Base>, i: nat)
    requires AllProper(objs) && i < |objs| && AllPlain(kinds, objs[..i])
    requires Initialised(b) && Room(b, i + 1) && AllKnown(b, objs[..i]) && Unknown(kinds, b, objs[i])
    ensures var (r, b') := Apply(kinds, b, Delete(objs));
      && r == Failed && Last(b', POLICY_KEY) == Last(b, POLICY_KEY) && Withdrawn(b, b', objs[..i])
      && (Initialised(b') <==> forall o :: o in objs[..i] ==> Current(b, o.id).None?)
  {
    var ix, front := Last(b, POLICY_KEY).value.content.objects, objs[..i];
    ProperPart(objs, i);
    DeletionStops(kinds, b, ix, objs, i);
    var b' := DeleteObjects(kinds, b, ix, false, objs).b;
    CallFails(kinds, b, Delete(objs));
    assert Withdrawn(b, b', front) by {
      MarkedWithdrawn(b, b', front);
    }
    assert Initialised(b') <==> IndexAgrees(b', ix) by {
      SamePolicy(b, b');
    }
    MarkedAgreesIff(b, ix, b', front);
  }

  lemma CallFails(kinds: set<string>, b: Db, call: Call)
    requires Initialised(b) && AllProper(call.objs)
    requires !Loop(kinds, b, Last(b, POLICY_KEY).value.content.objects, call).ok
    ensures Apply(kinds, b, call) == (Failed, Loop(kinds, b, Last(b, POLICY_KEY).value.content.objects, call).b)
  {
  }

  lemma DeletionStops(kinds: set<string>, b: Db, ix: Index, objs: seq<Base>, i: nat)
    requires AllProper(objs) && i < |objs| && AllPlain(kinds, objs[..i])
    requires Room(b, i + 1) && AllKnown(b, objs[..i]) && Unknown(kinds, b, objs[i])
    ensures var p := DeleteObjects(kinds, b, ix, false, objs);
      && !p.ok && Last(p.b, POLICY_KEY) == Last(b, POLICY_KEY)
      && forall id :: ProperId(id) ==> Current(p.b, id) == if GivenId(objs[..i], id) then None else Current(b, id)
  {
    ProperPart(objs, i);
    MarksOutOfForce(kinds, b, ix, false, objs[..i], 1);
    DeleteSplit(kinds, b, ix, false, objs, i);
    var p := DeleteObjects(kinds, b, ix, false, objs[..i]);
    assert objs[i..][0] == objs[i] && objs[i] in objs;
    StillUnknown(kinds, b, p.b, objs[i]);
    UnknownFails(kinds, p.b, p.ix, p.changed, objs[i..]);
  }

  lemma StillUnknown(kinds: set<string>, b: Db, b': Db, o: Base)
    requires ValidBucket(b) && ValidBucket(b') && SameKnown(b, b') && ProperId(o.id) && Unknown(kinds, b, o)
    ensures Unknown(kinds, b', o)
  {
  }

  lemma MarkedWithdrawn(b: Db, b': Db, objs: seq<Base>)
    requires ValidBucket(b) && ValidBucket(b')
    requires forall id :: ProperId(id) ==> Current(b', id) == if GivenId(objs, id) then None else Current(b, id)
    ensures Withdrawn(b, b', objs)
  {
  }

  lemma UnknownFails(kinds: set<string>, b: Db, ix: Index, changed: bool, objs: seq<Base>)
    requires ValidBucket(b) && AllProper(objs) && objs != [] && Unknown(kinds, b, objs[0])
    ensures !DeleteObjects(kinds, b, ix, changed, objs).ok && DeleteObjects(kinds, b, ix, changed, objs).b == b
  {
    KeyShape(objs[0].id);
  }

  lemma MarkedAgreesIff(b: Db, ix: Index, b': Db, objs: seq<Base>)
    requires IndexAgrees(b, ix) && ValidBucket(b') && AllProper(objs)
    requires forall id :: ProperId(id) ==> Current(b', id) == if GivenId(objs, id) then None else Current(b, id)
    ensures IndexAgrees(b', ix) <==> forall o :: o in objs ==> Current(b, o.id).None?
  {
    if IndexAgrees(b', ix) {
      forall o | o in objs ensures Current(b, o.id).None? {
        assert GivenId(objs, o.id) && Current(b', o.id) == None;
        assert At(ix, o.id) == None;
      }
    }
  }

  // ---- Runs of calls.

  ghost predicate AllCallsPlain(kinds: set<string>, calls: seq<Call>) {
    forall c :: c in calls ==> AllPlain(kinds, c.objs) && AllProper(c.objs)
  }

  /** No call of the run fails. */
  ghost predicate AllSucceed(kinds: set<string>, b: Db, calls: seq<Call>)
    requires ValidBucket(b) && AllCallsProper(calls)
    decreases |calls|
  {
    calls == [] || (Apply(kinds, b, calls[0]).0.Done? && AllSucceed(kinds, Apply(kinds, b, calls[0]).1, calls[1..]))
  }

  /** How many calls of the run report a change. */
  ghost function Changes(kinds: set<string>, b: Db, calls: seq<Call>): nat
    requires ValidBucket(b) && AllCallsProper(calls)
    decreases |calls|
  {
    if calls == [] then 0
    else
      var (r, b') := Apply(kinds, b, calls[0]);
      (if r.Done? && r.changed then 1 else 0) + Changes(kinds, b', calls[1..])
  }

  function IdsOf(objs: seq<Base>): set<ObjectId> {
    set o | o in objs :: o.id
  }

  /** Each deletion is of objects that are stored at the beginning, or given in an update before it. */
  ghost predicate MayRun(b: Db, given: set<ObjectId>, calls: seq<Call>)
    requires ValidBucket(b)
    decreases |calls|
  {
    calls == [] ||
    match calls[0]
    case Update(objs) => MayRun(b, given + IdsOf(objs), calls[1..])
    case Delete(objs) => (forall o :: o in objs ==> Last(b, KeyOf(o.id)).Some? || o.id in given) && MayRun(b, given, calls[1..])
  }

  /** The objects known are those of the beginning and those given since. */
  ghost predicate KnownSince(b0: Db, b: Db, given: set<ObjectId>)
    requires ValidBucket(b0) && ValidBucket(b)
  {
    forall id :: ProperId(id) ==> (Last(b, KeyOf(id)).Some? <==> Last(b0, KeyOf(id)).Some? || id in given)
  }

  lemma {:induction false} UpdateKnown(kinds: set<string>, b: Db, ix: Index, changed: bool, objs: seq<Base>, n: nat)
    requires AllPlain(kinds, objs) && AllProper(objs) && Room(b, |objs| + n)
    ensures var p := UpdateObjects(kinds, b, ix, changed, objs); KnownSince(b, p.b, IdsOf(objs))
    decreases |objs|
  {
    if objs != [] {
      var o := objs[0];
      PlainOne(kinds, objs);
      var (r, b') := SaveBase(kinds, b, o);
      SavedInForce(kinds, b, o);
      BaseRoom(kinds, b, o, |objs| - 1 + n);
      SaveKnown(kinds, b, o);
      UpdateKnown(kinds, b', if r.updated then Added(ix, o.id, r.obj.gen) else ix, changed || r.updated, objs[1..], n);
      assert forall x :: x in objs <==> x == o || x in objs[1..];
      assert IdsOf(objs) == {o.id} + IdsOf(objs[1..]);
    }
  }

  lemma SaveKnown(kinds: set<string>, b: Db, o: Base)
    requires ValidBucket(b) && ProperId(o.id) && Current(SaveBase(kinds, b, o).1, o.id).Some?
    ensures KnownSince(b, SaveBase(kinds, b, o).1, {o.id})
  {
    var b' := SaveBase(kinds, b, o).1;
    forall id | ProperId(id) ensures Last(b', KeyOf(id)).Some? <==> Last(b, KeyOf(id)).Some? || id in {o.id} {
      if id != o.id {
        KeysDiffer(id, o.id);
        KeyShape(o.id);
        SaveLeavesOthers(b, LANG_INFO, ToObject(o), false, KeyOf(id));
      }
    }
  }

  /** Saving the policy data makes no object known. */
  lemma PolicyKnown(b: Db, gen: Generation, ix: Index)
    requires ValidBucket(b)
    ensures var b' := Save(b, POLICY_INFO, PolicyObject(gen, ix), false).1; ValidBucket(b') && KnownSince(b, b', {})
  {
    PolicyKeyShape();
    var obj := PolicyObject(gen, ix);
    SaveKeepsValid(b, POLICY_INFO, obj, false);
    forall id | ProperId(id)
      ensures Last(Save(b, POLICY_INFO, obj, false).1, KeyOf(id)).Some? <==> Last(b, KeyOf(id)).Some?
    {
      PolicyKeyDiffers(id);
      SaveLeavesOthers(b, POLICY_INFO, obj, false, KeyOf(id));
    }
  }

  /** What one successful call makes known. */
  lemma CallKnown(kinds: set<string>, b: Db, call: Call)
    requires AllPlain(kinds, call.objs) && AllProper(call.objs) && Initialised(b) && Room(b, |call.objs| + 1)
    requires Apply(kinds, b, call).0.Done?
    ensures KnownSince(b, Apply(kinds, b, call).1, if call.Update? then IdsOf(call.objs) else {})
  {
    var last := Last(b, POLICY_KEY).value;
    var ix := last.content.objects;
    var p := Loop(kinds, b, ix, call);
    match call {
      case Update(objs) => UpdateKnown(kinds, b, ix, false, objs, 1);
      case Delete(objs) =>
        DeleteAgrees(kinds, b, ix, false, objs, 1, ix);
        MarksOutOfForce(kinds, b, ix, false, objs, 1);
    }
    PolicyKnown(p.b, last.gen, p.ix);
  }

  /** Calls with plain objects all succeed exactly if each deletion is of objects known by then. */
  lemma {:induction false} RunSucceedsIff(kinds: set<string>, b0: Db, given: set<ObjectId>, b: Db, calls: seq<Call>)
    requires AllCallsPlain(kinds, calls) && AllCallsProper(calls) && Initialised(b) && Room(b, Saves(calls))
    requires ValidBucket(b0) && KnownSince(b0, b, given)
    ensures AllSucceed(kinds, b, calls) <==> MayRun(b0, given, calls)
    decreases |calls|
  {
    if calls != [] {
      var call := calls[0];
      assert call in calls;
      FirstSucceedsIff(kinds, b0, given, b, call);
      if Apply(kinds, b, call).0.Done? {
        OneCall(kinds, b, call, Saves(calls[1..]));
        LessRoomNeeded(b, |call.objs| + 1, Saves(calls[1..]));
        CallKnown(kinds, b, call);
        RunSucceedsIff(kinds, b0, if call.Update? then given + IdsOf(call.objs) else given, Apply(kinds, b, call).1, calls[1..]);
      }
    }
  }

  lemma LessRoomNeeded(b: Db, n: nat, m: nat)
    requires Room(b, n + m)
    ensures Room(b, n)
  {
  }

  lemma FirstSucceedsIff(kinds: set<string>, b0: Db, given: set<ObjectId>, b: Db, call: Call)
    requires AllPlain(kinds, call.objs) && AllProper(call.objs) && Initialised(b) && Room(b, |call.objs| + 1)
    requires ValidBucket(b0) && KnownSince(b0, b, given)
    ensures Apply(kinds, b, call).0.Done? <==>
      call.Update? || forall o :: o in call.objs ==> Last(b0, KeyOf(o.id)).Some? || o.id in given
  {
    match call
    case Update(objs) => UpdateCall(kinds, b, objs);
    case Delete(objs) => DeleteCall(kinds, b, objs);
  }

  /**
   Over any run of calls with plain objects in which each deletion is of objects known by then, the index agrees
   with the store, and the policy generation counts the changing calls.
   */
  lemma RunKeepsAgreement(kinds: set<string>, b: Db, calls: seq<Call>)
    requires AllCallsPlain(kinds, calls) && AllCallsProper(calls) && Initialised(b) && Room(b, Saves(calls))
    requires MayRun(b, {}, calls)
    ensures var b' := Run(kinds, b, calls);
      Initialised(b') && Last(b', POLICY_KEY).value.gen == Last(b, POLICY_KEY).value.gen + Changes(kinds, b, calls)
  {
    RunSucceedsIff(kinds, b, {}, b, calls);
    SuccessfulRunAgrees(kinds, b, calls);
  }

  lemma {:induction false} SuccessfulRunAgrees(kinds: set<string>, b: Db, calls: seq<Call>)
    requires AllCallsPlain(kinds, calls) && AllCallsProper(calls) && Initialised(b) && Room(b, Saves(calls))
    requires AllSucceed(kinds, b, calls)
    ensures var b' := Run(kinds, b, calls);
      Initialised(b') && Last(b', POLICY_KEY).value.gen == Last(b, POLICY_KEY).value.gen + Changes(kinds, b, calls)
    decreases |calls|
  {
    if calls != [] {
      assert calls[0] in calls;
      OneCall(kinds, b, calls[0], Saves(calls[1..]));
      SuccessfulRunAgrees(kinds, Apply(kinds, b, calls[0]).1, calls[1..]);
    }
  }

  lemma OneCall(kinds: set<string>, b: Db, call: Call, n: nat)
    requires AllPlain(kinds, call.objs) && AllProper(call.objs) && Initialised(b) && Room(b, |call.objs| + 1 + n)
    requires Apply(kinds, b, call).0.Done?
    ensures var (r, b') := Apply(kinds, b, call); WellDone(b, r.changed, b') && Room(b', n)
  {
    LessRoomNeeded(b, |call.objs| + 1, n);
    ApplyExtends(kinds, b, call, n);
    match call
    case Update(objs) => UpdateCall(kinds, b, objs);
    case Delete(objs) => DeleteCall(kinds, b, objs);
  }
}

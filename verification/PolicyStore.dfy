/** Policy changes over the versioned store: each changing call adds a snapshot of references to object generations. */
module PolicyStore {
  import opened Prelude
  import opened Generations
  import opened BoltStore
  import opened PolicyData

  datatype Content = Lang(spec: string) | Policy(objects: Index)

  type Db = Bucket<Content>

  /** An object of a policy update, as it arrives. */
  datatype Base = Base(id: ObjectId, gen: Generation, deleted: bool, spec: string)

  const LANG_INFO := Info(true, true)
  const POLICY_INFO := Info(true, false)

  function ToObject(o: Base): Object<Content> {
    Object(o.id.kind, KeyOf(o.id), o.gen, o.deleted, Lang(o.spec))
  }

  /** Policy data of the given generation; they are never marked as deleted. */
  function PolicyObject(gen: Generation, ix: Index): Object<Content> {
    Object(POLICY_KIND, POLICY_KEY, gen, false, Policy(ix))
  }

  /** The kinds of language objects, and the policy itself. */
  function Registry(kinds: set<string>): map<string, Info> {
    map k | k in kinds + {POLICY_KIND} :: if k == POLICY_KIND then POLICY_INFO else LANG_INFO
  }

  ghost predicate AllProper(objs: seq<Base>) {
    forall o :: o in objs ==> ProperId(o.id) && o.id.kind != POLICY_KIND
  }

  ghost function SaveBase(kinds: set<string>, b: Db, o: Base): (r: (SaveResult<Content>, Db))
    requires ValidBucket(b) && ProperId(o.id)
    ensures ValidBucket(r.1)
  {
    KeyShape(o.id);
    SaveKeepsValid(b, LANG_INFO, ToObject(o), false);
    if o.id.kind !in kinds then (NotSaved, b) else Save(b, LANG_INFO, ToObject(o), false)
  }

  // ---- The two operations.

  datatype Progress = Progress(ok: bool, b: Db, ix: Index, changed: bool)

  /** The loop of UpdatePolicy: it stops at an object that is marked as deleted, or cannot be saved. */
  ghost function UpdateObjects(kinds: set<string>, b: Db, ix: Index, changed: bool, objs: seq<Base>): (p: Progress)
    requires ValidBucket(b) && AllProper(objs)
    ensures ValidBucket(p.b)
    decreases |objs|
  {
    if objs == [] then Progress(true, b, ix, changed)
    else if objs[0].deleted then Progress(false, b, ix, changed)
    else
      var (r, b') := SaveBase(kinds, b, objs[0]);
      if r.NotSaved? then Progress(false, b, ix, changed)
      else if r.updated then UpdateObjects(kinds, b', Added(ix, objs[0].id, r.obj.gen), true, objs[1..])
      else UpdateObjects(kinds, b', ix, changed, objs[1..])
  }

  /** The loop of DeleteFromPolicy: objects that are not marked as deleted yet are saved with the mark. */
  ghost function DeleteObjects(kinds: set<string>, b: Db, ix: Index, changed: bool, objs: seq<Base>): (p: Progress)
    requires ValidBucket(b) && AllProper(objs)
    ensures ValidBucket(p.b)
    decreases |objs|
  {
    if objs == [] then Progress(true, b, ix, changed)
    else
      var ix', changed' := Removed(ix, objs[0].id), changed || At(ix, objs[0].id).Some?;
      if objs[0].deleted then DeleteObjects(kinds, b, ix', changed', objs[1..])
      else
        var (r, b') := SaveBase(kinds, b, objs[0].(deleted := true));
        if r.NotSaved? then Progress(false, b, ix', changed')
        else DeleteObjects(kinds, b', ix', changed', objs[1..])
  }

  datatype Outcome = Failed | Done(changed: bool)

  datatype Call = Update(objs: seq<Base>) | Delete(objs: seq<Base>)

  ghost function Loop(kinds: set<string>, b: Db, ix: Index, call: Call): (p: Progress)
    requires ValidBucket(b) && AllProper(call.objs)
    ensures ValidBucket(p.b)
  {
    match call
    case Update(objs) => UpdateObjects(kinds, b, ix, false, objs)
    case Delete(objs) => DeleteObjects(kinds, b, ix, false, objs)
  }

  /** A whole call. Without a policy it fails: the one operation panics, the other dereferences nil. */
  ghost function Apply(kinds: set<string>, b: Db, call: Call): (r: (Outcome, Db))
    requires ValidBucket(b) && AllProper(call.objs)
    ensures ValidBucket(r.1)
  {
    var last := Last(b, POLICY_KEY);
    if last.None? || !last.value.content.Policy? then (Failed, b)
    else
      var p := Loop(kinds, b, last.value.content.objects, call);
      if !p.ok then (Failed, p.b)
      else if !p.changed then (Done(false), p.b)
      else
        PolicyKeyShape();
        SaveKeepsValid(p.b, POLICY_INFO, PolicyObject(last.value.gen, p.ix), false);
        (Done(true), Save(p.b, POLICY_INFO, PolicyObject(last.value.gen, p.ix), false).1)
  }

  // ---- What is current.

  /** The generation of the object that is in force: the last one stored, unless it is marked as deleted. */
  ghost function Current(b: Db, id: ObjectId): Option<Object<Content>>
    requires ValidBucket(b)
  {
    var last := Last(b, KeyOf(id));
    if last.Some? && !last.value.deleted then last else None
  }

  /** The index refers to an object exactly when it is in force, and then to its last generation. */
  ghost predicate IndexAgrees(b: Db, ix: Index) {
    && ValidBucket(b)
    && forall id :: ProperId(id) && id.kind != POLICY_KIND ==>
         At(ix, id) == if Current(b, id).Some? then Some(Current(b, id).value.gen) else None
  }

  /** Generations are far enough from the end of their range for n more saves. */
  ghost predicate Room(b: Db, n: nat) {
    && ValidBucket(b) && n < MAX_GENERATION
    && forall key :: Last(b, key).Some? ==> Last(b, key).value.gen + n <= MAX_GENERATION
  }

  /** Everything stored is still stored as it was. */
  ghost predicate Extends(b: Db, b': Db) {
    forall p :: p in b ==> p in b' && b'[p] == b[p]
  }

  lemma SaveRoom(b: Db, info: Info, obj: Object<Content>, n: nat)
    requires Room(b, n + 1) && info.versioned && '@' !in obj.key && obj.gen + n <= MAX_GENERATION
    ensures Room(Save(b, info, obj, false).1, n) && Extends(b, Save(b, info, obj, false).1)
  {
    var (r, b') := Save(b, info, obj, false);
    SaveKeepsValid(b, info, obj, false);
    forall p | p in b ensures p in b' && b'[p] == b[p] {
      SaveAltersIff(b, info, obj, p);
    }
    forall key | Last(b', key).Some? ensures Last(b', key).value.gen + n <= MAX_GENERATION {
      if key != obj.key {
        SaveLeavesOthers(b, info, obj, false, key);
      } else if r.Saved? {
        PathOfKey(b, b', r.obj, Last(b', key).value.gen);
      }
    }
  }

  lemma BaseRoom(kinds: set<string>, b: Db, o: Base, n: nat)
    requires ProperId(o.id) && Room(b, n + 1) && o.gen + n <= MAX_GENERATION
    ensures Room(SaveBase(kinds, b, o).1, n) && Extends(b, SaveBase(kinds, b, o).1)
  {
    KeyShape(o.id);
    SaveRoom(b, LANG_INFO, ToObject(o), n);
  }

  // ---- Snapshots.

  ghost predicate GensLeave(objs: seq<Base>, n: nat) {
    forall o :: o in objs ==> o.gen + n <= MAX_GENERATION
  }

  lemma {:induction false} UpdateExtends(kinds: set<string>, b: Db, ix: Index, changed: bool, objs: seq<Base>, n: nat)
    requires AllProper(objs) && Room(b, |objs| + n) && GensLeave(objs, |objs| + n)
    ensures var p := UpdateObjects(kinds, b, ix, changed, objs); Extends(b, p.b) && Room(p.b, n)
    decreases |objs|
  {
    if objs != [] && !objs[0].deleted {
      var (r, b') := SaveBase(kinds, b, objs[0]);
      BaseRoom(kinds, b, objs[0], |objs| - 1 + n);
      if r.Saved? {
        UpdateExtends(kinds, b', if r.updated then Added(ix, objs[0].id, r.obj.gen) else ix, changed || r.updated, objs[1..], n);
      }
    }
  }

  lemma {:induction false} DeleteExtends(kinds: set<string>, b: Db, ix: Index, changed: bool, objs: seq<Base>, n: nat)
    requires AllProper(objs) && Room(b, |objs| + n) && GensLeave(objs, |objs| + n)
    ensures var p := DeleteObjects(kinds, b, ix, changed, objs); Extends(b, p.b) && Room(p.b, n)
    decreases |objs|
  {
    if objs != [] {
      var ix', changed' := Removed(ix, objs[0].id), changed || At(ix, objs[0].id).Some?;
      if objs[0].deleted {
        DeleteExtends(kinds, b, ix', changed', objs[1..], n);
      } else {
        var o := objs[0].(deleted := true);
        var (r, b') := SaveBase(kinds, b, o);
        BaseRoom(kinds, b, o, |objs| - 1 + n);
        if r.Saved? {
          DeleteExtends(kinds, b', ix', changed', objs[1..], n);
        }
      }
    }
  }

  /** One call, successful or not, alters nothing that is stored. */
  lemma ApplyExtends(kinds: set<string>, b: Db, call: Call, n: nat)
    requires AllProper(call.objs) && Room(b, |call.objs| + 1 + n) && GensLeave(call.objs, |call.objs| + 1 + n)
    ensures Extends(b, Apply(kinds, b, call).1) && Room(Apply(kinds, b, call).1, n)
  {
    var last := Last(b, POLICY_KEY);
    if last.Some? && last.value.content.Policy? {
      var ix := last.value.content.objects;
      match call {
        case Update(objs) => UpdateExtends(kinds, b, ix, false, objs, n + 1);
        case Delete(objs) => DeleteExtends(kinds, b, ix, false, objs, n + 1);
      }
      var p := Loop(kinds, b, ix, call);
      PolicyKeyShape();
      SaveRoom(p.b, POLICY_INFO, PolicyObject(last.value.gen, p.ix), n);
    }
  }

  ghost predicate AllCallsProper(calls: seq<Call>) {
    forall c :: c in calls ==> AllProper(c.objs)
  }

  /** The number of saves that the calls may need. */
  function Saves(calls: seq<Call>): nat {
    if calls == [] then 0 else |calls[0].objs| + 1 + Saves(calls[1..])
  }

  ghost function Run(kinds: set<string>, b: Db, calls: seq<Call>): (r: Db)
    requires ValidBucket(b) && AllCallsProper(calls)
    ensures ValidBucket(r)
    decreases |calls|
  {
    if calls == [] then b else Run(kinds, Apply(kinds, b, calls[0]).1, calls[1..])
  }

  /** The object that a snapshot of the policy holds for an id. */
  ghost function InSnapshot(b: Db, gen: Generation, id: ObjectId): Option<Object<Content>>
    requires ValidBucket(b)
  {
    var data := Stored(b, POLICY_KEY, gen);
    if data.None? || !data.value.content.Policy? || At(data.value.content.objects, id).None? then None
    else Stored(b, KeyOf(id), At(data.value.content.objects, id).value)
  }

  /** Snapshot immutability: whatever calls are made, in whatever order, and whether or not they succeed, a policy generation keeps its value. */
  lemma {:induction false} SnapshotsImmutable(kinds: set<string>, b: Db, calls: seq<Call>)
    requires AllCallsProper(calls) && Room(b, Saves(calls))
    requires forall c :: c in calls ==> GensLeave(c.objs, Saves(calls))
    ensures Extends(b, Run(kinds, b, calls))
    ensures forall gen: Generation, id :: InSnapshot(b, gen, id).Some? ==>
      InSnapshot(Run(kinds, b, calls), gen, id) == InSnapshot(b, gen, id)
    decreases |calls|
  {
    if calls != [] {
      ApplyExtends(kinds, b, calls[0], Saves(calls[1..]));
      SnapshotsImmutable(kinds, Apply(kinds, b, calls[0]).1, calls[1..]);
    }
  }

  // ---- The index and the store agree.

  /** Plain objects: generation 0, not marked as deleted, of a known kind. */
  ghost predicate AllPlain(kinds: set<string>, objs: seq<Base>) {
    forall o :: o in objs ==> ProperId(o.id) && o.id.kind != POLICY_KIND && o.id.kind in kinds && o.gen == LAST_GEN && !o.deleted
  }

  lemma CurrentElsewhere(kinds: set<string>, b: Db, o: Base, id: ObjectId)
    requires ValidBucket(b) && ProperId(o.id) && ProperId(id) && id != o.id
    ensures Current(SaveBase(kinds, b, o).1, id) == Current(b, id)
  {
    KeysDiffer(o.id, id);
    KeyShape(o.id);
    SaveLeavesOthers(b, LANG_INFO, ToObject(o), false, KeyOf(id));
  }

  lemma AllElsewhere(kinds: set<string>, b: Db, o: Base)
    requires ValidBucket(b) && ProperId(o.id)
    ensures forall id :: ProperId(id) && id != o.id ==> Current(SaveBase(kinds, b, o).1, id) == Current(b, id)
  {
    forall id | ProperId(id) && id != o.id ensures Current(SaveBase(kinds, b, o).1, id) == Current(b, id) {
      CurrentElsewhere(kinds, b, o, id);
    }
  }

  lemma PolicyElsewhere(kinds: set<string>, b: Db, o: Base)
    requires ValidBucket(b) && ProperId(o.id)
    ensures Last(SaveBase(kinds, b, o).1, POLICY_KEY) == Last(b, POLICY_KEY)
  {
    PolicyKeyDiffers(o.id);
    KeyShape(o.id);
    SaveLeavesOthers(b, LANG_INFO, ToObject(o), false, POLICY_KEY);
  }

  /** Saving a plain object puts it in force, and says whether its last generation is a new one. */
  lemma SavedInForce(kinds: set<string>, b: Db, o: Base)
    requires Room(b, 1) && ProperId(o.id) && o.id.kind in kinds && o.gen == LAST_GEN && !o.deleted
    ensures var (r, b') := SaveBase(kinds, b, o);
      && r.Saved? && r.obj == ToObject(o).(gen := r.obj.gen)
      && Current(b', o.id) == Some(r.obj)
      && (!r.updated ==> Current(b, o.id) == Some(r.obj))
      && (r.updated ==> Path(KeyOf(o.id), r.obj.gen) !in b)
  {
    KeyShape(o.id);
    SavedIsLast(b, LANG_INFO, ToObject(o));
  }

  /** Saving a plain object with the mark puts it out of force, if it is stored at all. */
  lemma SavedOutOfForce(kinds: set<string>, b: Db, o: Base)
    requires Room(b, 1) && ProperId(o.id) && o.id.kind in kinds && o.gen == LAST_GEN && !o.deleted
    ensures var (r, b') := SaveBase(kinds, b, o.(deleted := true));
      && (r.Saved? <==> Last(b, KeyOf(o.id)).Some?)
      && (r.Saved? ==> Current(b', o.id) == None)
  {
    KeyShape(o.id);
    SavedIsLast(b, LANG_INFO, ToObject(o.(deleted := true)));
  }

  /** References added since ix0 are to generations not in b0. */
  ghost predicate NewReferences(b0: Db, ix0: Index, ix: Index) {
    forall id :: At(ix, id) != At(ix0, id) ==> At(ix, id).Some? && Path(KeyOf(id), At(ix, id).value) !in b0
  }

  ghost predicate DiffersFrom(ix0: Index, ix: Index) {
    exists id :: ProperId(id) && id.kind != POLICY_KIND && At(ix, id) != At(ix0, id)
  }

  /** The specification of an object in force. */
  ghost function InForce(b: Db, id: ObjectId): Option<Content>
    requires ValidBucket(b)
  {
    var c := Current(b, id);
    if c.Some? then Some(c.value.content) else None
  }

  /** The last specification given for an id. */
  function LastGiven(objs: seq<Base>, id: ObjectId): Option<Content> {
    if objs == [] then None
    else
      var rest := LastGiven(objs[1..], id);
      if rest.Some? then rest else if objs[0].id == id then Some(Lang(objs[0].spec)) else None
  }

  /** The state of an update loop, begun with the store b0 and the index ix0. */
  ghost predicate Agreeing(b0: Db, ix0: Index, b: Db, ix: Index, changed: bool) {
    && IndexAgrees(b0, ix0) && Extends(b0, b) && IndexAgrees(b, ix)
    && NewReferences(b0, ix0, ix) && (changed ==> DiffersFrom(ix0, ix))
  }

  /** What is in force is what was, overridden by the given objects. */
  ghost predicate Overridden(b: Db, b': Db, objs: seq<Base>)
    requires ValidBucket(b) && ValidBucket(b')
  {
    forall id :: ProperId(id) ==> InForce(b', id) == Else(LastGiven(objs, id), InForce(b, id))
  }

  lemma OverriddenByOne(b: Db, b': Db, o: Base)
    requires ValidBucket(b) && ValidBucket(b')
    requires forall id :: ProperId(id) && id != o.id ==> Current(b', id) == Current(b, id)
    requires InForce(b', o.id) == Some(Lang(o.spec))
    ensures Overridden(b, b', [o])
  {
    assert [o][1..] == [];
  }

  function Else<T>(v: Option<T>, w: Option<T>): Option<T> {
    if v.Some? then v else w
  }

  lemma LastGivenCons(objs: seq<Base>, id: ObjectId)
    requires objs != []
    ensures LastGiven(objs, id) == Else(LastGiven(objs[1..], id), LastGiven([objs[0]], id))
  {
  }

  lemma OverriddenTwice(b: Db, b1: Db, b2: Db, objs: seq<Base>)
    requires ValidBucket(b) && ValidBucket(b1) && ValidBucket(b2) && objs != []
    requires Overridden(b, b1, [objs[0]]) && Overridden(b1, b2, objs[1..])
    ensures Overridden(b, b2, objs)
  {
    forall id | ProperId(id) ensures InForce(b2, id) == Else(LastGiven(objs, id), InForce(b, id)) {
      LastGivenCons(objs, id);
    }
  }

  lemma UpdateOne(kinds: set<string>, b: Db, ix: Index, changed: bool, o: Base, n: nat, b0: Db, ix0: Index)
    requires AllPlain(kinds, [o]) && Room(b, n + 1) && Agreeing(b0, ix0, b, ix, changed)
    ensures var (r, b') := SaveBase(kinds, b, o);
      && r.Saved? && Room(b', n) && Last(b', POLICY_KEY) == Last(b, POLICY_KEY)
      && Agreeing(b0, ix0, b', if r.updated then Added(ix, o.id, r.obj.gen) else ix, changed || r.updated)
      && Overridden(b, b', [o])
  {
    assert o in [o];
    var (r, b') := SaveBase(kinds, b, o);
    SavedInForce(kinds, b, o);
    BaseRoom(kinds, b, o, n);
    PolicyElsewhere(kinds, b, o);
    AllElsewhere(kinds, b, o);
    OverriddenByOne(b, b', o);
    AgreesAfterSave(b, ix, b', o.id, r.obj.gen, r.updated);
    if r.updated {
      OtherReference(b0, ix0, o.id, r.obj.gen);
      assert At(Added(ix, o.id, r.obj.gen), o.id) != At(ix0, o.id);
    }
  }

  lemma AgreesAfterSave(b: Db, ix: Index, b': Db, id: ObjectId, gen: Generation, updated: bool)
    requires IndexAgrees(b, ix) && ValidBucket(b') && ProperId(id) && id.kind != POLICY_KIND
    requires forall x :: ProperId(x) && x != id ==> Current(b', x) == Current(b, x)
    requires Current(b', id).Some? && Current(b', id).value.gen == gen && (!updated ==> Current(b, id) == Current(b', id))
    ensures IndexAgrees(b', if updated then Added(ix, id, gen) else ix)
  {
  }

  /** The index refers to generations that are stored. */
  lemma OtherReference(b: Db, ix: Index, id: ObjectId, gen: Generation)
    requires IndexAgrees(b, ix) && ProperId(id) && id.kind != POLICY_KIND && Path(KeyOf(id), gen) !in b
    ensures At(ix, id) != Some(gen)
  {
  }

  /** The loop of an update with plain objects succeeds and keeps the agreement; what is in force is overridden by the update. */
  lemma {:induction false} UpdateAgrees(kinds: set<string>, b: Db, ix: Index, changed: bool, objs: seq<Base>, n: nat, b0: Db, ix0: Index)
    requires AllPlain(kinds, objs) && Room(b, |objs| + n) && Agreeing(b0, ix0, b, ix, changed)
    ensures var p := UpdateObjects(kinds, b, ix, changed, objs);
      && p.ok && Room(p.b, n) && Last(p.b, POLICY_KEY) == Last(b, POLICY_KEY)
      && Agreeing(b0, ix0, p.b, p.ix, p.changed) && Overridden(b, p.b, objs)
    decreases |objs|
  {
    if objs != [] {
      var o := objs[0];
      PlainOne(kinds, objs);
      var (r, b') := SaveBase(kinds, b, o);
      UpdateOne(kinds, b, ix, changed, o, |objs| - 1 + n, b0, ix0);
      UpdateAgrees(kinds, b', if r.updated then Added(ix, o.id, r.obj.gen) else ix, changed || r.updated, objs[1..], n, b0, ix0);
      OverriddenTwice(b, b', UpdateObjects(kinds, b, ix, changed, objs).b, objs);
    }
  }

  lemma PlainOne(kinds: set<string>, objs: seq<Base>)
    requires AllPlain(kinds, objs) && objs != []
    ensures AllPlain(kinds, [objs[0]]) && AllPlain(kinds, objs[1..]) && !objs[0].deleted
  {
  }

  // ---- Deletions.

  ghost predicate GivenId(objs: seq<Base>, id: ObjectId) {
    exists o :: o in objs && o.id == id
  }

  /** What is in force is what was, without the given objects. */
  ghost predicate Withdrawn(b: Db, b': Db, objs: seq<Base>)
    requires ValidBucket(b) && ValidBucket(b')
  {
    forall id :: ProperId(id) ==> InForce(b', id) == if GivenId(objs, id) then None else InForce(b, id)
  }

  /** The state of a deletion loop, begun with the index ix0: references have only been dropped. */
  ghost predicate Deleting(ix0: Index, b: Db, ix: Index, changed: bool) {
    && IndexAgrees(b, ix)
    && (forall id :: At(ix, id) == At(ix0, id) || At(ix, id) == None)
    && (changed ==> DiffersFrom(ix0, ix))
  }

  lemma DeleteOne(kinds: set<string>, b: Db, ix: Index, changed: bool, o: Base, n: nat, ix0: Index)
    requires AllPlain(kinds, [o]) && Room(b, n + 1) && Deleting(ix0, b, ix, changed)
    ensures var (r, b') := SaveBase(kinds, b, o.(deleted := true));
      && (r.Saved? <==> Last(b, KeyOf(o.id)).Some?)
      && (r.Saved? ==>
            && Room(b', n) && Last(b', POLICY_KEY) == Last(b, POLICY_KEY)
            && Deleting(ix0, b', Removed(ix, o.id), changed || At(ix, o.id).Some?)
            && Withdrawn(b, b', [o])
            && SameKnown(b, b'))
  {
    assert o in [o];
    var d := o.(deleted := true);
    var (r, b') := SaveBase(kinds, b, d);
    SavedOutOfForce(kinds, b, o);
    BaseRoom(kinds, b, d, n);
    PolicyElsewhere(kinds, b, d);
    if r.Saved? {
      AllElsewhere(kinds, b, d);
      StillDeleting(ix0, b, ix, changed, b', o.id);
      KnownStays(kinds, b, d);
    }
  }

  lemma StillDeleting(ix0: Index, b: Db, ix: Index, changed: bool, b': Db, id: ObjectId)
    requires Deleting(ix0, b, ix, changed) && ValidBucket(b') && Current(b', id) == None && ProperId(id) && id.kind != POLICY_KIND
    requires forall x :: ProperId(x) && x != id ==> Current(b', x) == Current(b, x)
    ensures Deleting(ix0, b', Removed(ix, id), changed || At(ix, id).Some?)
  {
    if At(ix, id).Some? {
      assert At(Removed(ix, id), id) != At(ix0, id);
    } else if changed {
      var x :| ProperId(x) && x.kind != POLICY_KIND && At(ix, x) != At(ix0, x);
      assert At(Removed(ix, id), x) != At(ix0, x);
    }
  }

  /** The same proper objects have been stored at some time. */
  ghost predicate SameKnown(b: Db, b': Db)
    requires ValidBucket(b) && ValidBucket(b')
  {
    forall id :: ProperId(id) ==> (Last(b', KeyOf(id)).Some? <==> Last(b, KeyOf(id)).Some?)
  }

  lemma KnownStays(kinds: set<string>, b: Db, d: Base)
    requires ValidBucket(b) && ProperId(d.id) && Last(b, KeyOf(d.id)).Some?
    ensures SameKnown(b, SaveBase(kinds, b, d).1)
  {
    var b' := SaveBase(kinds, b, d).1;
    forall id | ProperId(id) ensures Last(b', KeyOf(id)).Some? <==> Last(b, KeyOf(id)).Some? {
      KeyShape(d.id);
      if id != d.id {
        KeysDiffer(id, d.id);
        SaveLeavesOthers(b, LANG_INFO, ToObject(d), false, KeyOf(id));
      } else {
        assert Path(KeyOf(id), Last(b, KeyOf(id)).value.gen) in b';
      }
    }
  }

  ghost predicate AllKnown(b: Db, objs: seq<Base>)
    requires ValidBucket(b)
  {
    forall o :: o in objs ==> Last(b, KeyOf(o.id)).Some?
  }

  /** The loop of a deletion with plain objects succeeds exactly when all of them are known, and keeps the agreement. */
  lemma {:induction false} DeleteAgrees(kinds: set<string>, b: Db, ix: Index, changed: bool, objs: seq<Base>, n: nat, ix0: Index)
    requires AllPlain(kinds, objs) && Room(b, |objs| + n) && Deleting(ix0, b, ix, changed)
    ensures var p := DeleteObjects(kinds, b, ix, changed, objs);
      && (p.ok <==> AllKnown(b, objs)) && Last(p.b, POLICY_KEY) == Last(b, POLICY_KEY)
      && (p.ok ==> Room(p.b, n) && Deleting(ix0, p.b, p.ix, p.changed) && Withdrawn(b, p.b, objs))
    decreases |objs|
  {
    if objs != [] {
      var o := objs[0];
      PlainOne(kinds, objs);
      assert forall x :: x in objs <==> x == o || x in objs[1..];
      var (r, b') := SaveBase(kinds, b, o.(deleted := true));
      DeleteOne(kinds, b, ix, changed, o, |objs| - 1 + n, ix0);
      if r.Saved? {
        DeleteAgrees(kinds, b', Removed(ix, o.id), changed || At(ix, o.id).Some?, objs[1..], n, ix0);
        AllKnownRest(b, b', objs);
        if DeleteObjects(kinds, b, ix, changed, objs).ok {
          WithdrawnTwice(b, b', DeleteObjects(kinds, b, ix, changed, objs).b, objs);
        }
      }
    }
  }

  lemma AllKnownRest(b: Db, b': Db, objs: seq<Base>)
    requires ValidBucket(b) && ValidBucket(b') && SameKnown(b, b') && objs != [] && AllProper(objs)
    requires Last(b, KeyOf(objs[0].id)).Some?
    ensures AllKnown(b, objs) <==> AllKnown(b', objs[1..])
  {
    assert forall x :: x in objs <==> x == objs[0] || x in objs[1..];
  }

  lemma WithdrawnTwice(b: Db, b1: Db, b2: Db, objs: seq<Base>)
    requires ValidBucket(b) && ValidBucket(b1) && ValidBucket(b2) && objs != []
    requires Withdrawn(b, b1, [objs[0]]) && Withdrawn(b1, b2, objs[1..])
    ensures Withdrawn(b, b2, objs)
  {
  }

  // ---- Whole calls.

  /** There is a policy, and its index agrees with the store. */
  ghost predicate Initialised(b: Db) {
    && ValidBucket(b)
    && Last(b, POLICY_KEY).Some? && Last(b, POLICY_KEY).value.content.Policy?
    && var last := Last(b, POLICY_KEY).value;
    last == PolicyObject(last.gen, last.content.objects) && IndexAgrees(b, last.content.objects)
  }

  lemma PolicySaved(b: Db, gen: Generation, ix0: Index, ix: Index)
    requires Room(b, 1) && Last(b, POLICY_KEY) == Some(PolicyObject(gen, ix0)) && IndexAgrees(b, ix) && ix != ix0
    ensures var b' := Save(b, POLICY_INFO, PolicyObject(gen, ix), false).1;
      && Initialised(b') && gen < MAX_GENERATION && Last(b', POLICY_KEY).value == PolicyObject(gen + 1, ix)
      && forall id :: ProperId(id) ==> InForce(b', id) == InForce(b, id)
  {
    PolicyKeyShape();
    var obj := PolicyObject(gen, ix);
    SavedIsLast(b, POLICY_INFO, obj);
    var b' := Save(b, POLICY_INFO, obj, false).1;
    forall id | ProperId(id) ensures Current(b', id) == Current(b, id) {
      PolicyKeyDiffers(id);
      SaveLeavesOthers(b, POLICY_INFO, obj, false, KeyOf(id));
    }
  }

  /** A call that has been successful: agreement again, and the policy generation one higher if it changed anything. */
  ghost predicate WellDone(b: Db, changed: bool, b': Db) {
    Initialised(b) && Initialised(b') && Last(b', POLICY_KEY).value.gen == Last(b, POLICY_KEY).value.gen + if changed then 1 else 0
  }

  /** The end of a call whose loop was successful. */
  lemma CallEnds(b: Db, p: Progress, b': Db)
    requires Initialised(b) && Room(p.b, 1) && Last(p.b, POLICY_KEY) == Last(b, POLICY_KEY)
    requires IndexAgrees(p.b, p.ix) && (p.changed ==> DiffersFrom(Last(b, POLICY_KEY).value.content.objects, p.ix))
    requires !p.changed ==> p.ix == Last(b, POLICY_KEY).value.content.objects
    requires b' == if p.changed then Save(p.b, POLICY_INFO, PolicyObject(Last(b, POLICY_KEY).value.gen, p.ix), false).1 else p.b
    ensures WellDone(b, p.changed, b') && forall id :: ProperId(id) ==> InForce(b', id) == InForce(p.b, id)
  {
    if p.changed {
      PolicySaved(p.b, Last(b, POLICY_KEY).value.gen, Last(b, POLICY_KEY).value.content.objects, p.ix);
    }
  }

  lemma {:induction false} UnchangedIndex(kinds: set<string>, b: Db, ix: Index, objs: seq<Base>)
    requires ValidBucket(b) && AllProper(objs)
    ensures var p := UpdateObjects(kinds, b, ix, false, objs); !p.changed ==> p.ix == ix
    decreases |objs|
  {
    if objs != [] && !objs[0].deleted {
      var (r, b') := SaveBase(kinds, b, objs[0]);
      if r.Saved? {
        if r.updated {
          ChangedStays(kinds, b', Added(ix, objs[0].id, r.obj.gen), objs[1..]);
        } else {
          UnchangedIndex(kinds, b', ix, objs[1..]);
        }
      }
    }
  }

  lemma {:induction false} ChangedStays(kinds: set<string>, b: Db, ix: Index, objs: seq<Base>)
    requires ValidBucket(b) && AllProper(objs)
    ensures UpdateObjects(kinds, b, ix, true, objs).changed
    decreases |objs|
  {
    if objs != [] && !objs[0].deleted {
      var (r, b') := SaveBase(kinds, b, objs[0]);
      if r.Saved? {
        ChangedStays(kinds, b', if r.updated then Added(ix, objs[0].id, r.obj.gen) else ix, objs[1..]);
      }
    }
  }

  /** Removing what is not there leaves the index as it is. */
  lemma RemovedNothing(ix: Index, id: ObjectId)
    requires At(ix, id).None?
    ensures Removed(ix, id) == ix
  {
    if id.ns in ix && id.kind in ix[id.ns] {
      assert ix[id.ns][id.kind] - {id.name} == ix[id.ns][id.kind];
      assert ix[id.ns][id.kind := ix[id.ns][id.kind]] == ix[id.ns];
    }
  }

  lemma {:induction false} UnremovedIndex(kinds: set<string>, b: Db, ix: Index, objs: seq<Base>)
    requires ValidBucket(b) && AllProper(objs)
    ensures var p := DeleteObjects(kinds, b, ix, false, objs); !p.changed ==> p.ix == ix
    decreases |objs|
  {
    if objs != [] {
      var o := objs[0];
      if At(ix, o.id).None? {
        RemovedNothing(ix, o.id);
        if o.deleted {
          UnremovedIndex(kinds, b, ix, objs[1..]);
        } else {
          UnremovedIndex(kinds, SaveBase(kinds, b, o.(deleted := true)).1, ix, objs[1..]);
        }
      } else {
        var b' := if o.deleted then b else SaveBase(kinds, b, o.(deleted := true)).1;
        RemovalStays(kinds, b', Removed(ix, o.id), objs[1..]);
      }
    }
  }

  lemma {:induction false} RemovalStays(kinds: set<string>, b: Db, ix: Index, objs: seq<Base>)
    requires ValidBucket(b) && AllProper(objs)
    ensures DeleteObjects(kinds, b, ix, true, objs).changed
    decreases |objs|
  {
    if objs != [] {
      var b' := if objs[0].deleted then b else SaveBase(kinds, b, objs[0].(deleted := true)).1;
      RemovalStays(kinds, b', Removed(ix, objs[0].id), objs[1..]);
    }
  }

  /**
   An update with plain objects succeeds. The index agrees with the store again, the policy generation has
   grown by one if the call reports a change and not otherwise, and the new policy is the old one overridden
   by the update.
   */
  lemma UpdateCall(kinds: set<string>, b: Db, objs: seq<Base>)
    requires AllPlain(kinds, objs) && AllProper(objs) && Initialised(b) && Room(b, |objs| + 1)
    ensures var (r, b') := Apply(kinds, b, Update(objs));
      r.Done? && WellDone(b, r.changed, b') && Overridden(b, b', objs)
  {
    var ix := Last(b, POLICY_KEY).value.content.objects;
    UpdateAgrees(kinds, b, ix, false, objs, 1, b, ix);
    UnchangedIndex(kinds, b, ix, objs);
    CallEnds(b, UpdateObjects(kinds, b, ix, false, objs), Apply(kinds, b, Update(objs)).1);
  }

  /**
   A deletion of plain objects succeeds exactly when all of them have been stored before. Then it does the
   same, and the new policy is the old one without them; otherwise the policy data stay as they are.
   */
  lemma DeleteCall(kinds: set<string>, b: Db, objs: seq<Base>)
    requires AllPlain(kinds, objs) && AllProper(objs) && Initialised(b) && Room(b, |objs| + 1)
    ensures var (r, b') := Apply(kinds, b, Delete(objs));
      && (r.Done? <==> AllKnown(b, objs))
      && (r.Done? ==> WellDone(b, r.changed, b') && Withdrawn(b, b', objs))
      && (r.Failed? ==> Last(b', POLICY_KEY) == Last(b, POLICY_KEY))
  {
    var ix := Last(b, POLICY_KEY).value.content.objects;
    DeleteAgrees(kinds, b, ix, false, objs, 1, ix);
    UnremovedIndex(kinds, b, ix, objs);
    var p := DeleteObjects(kinds, b, ix, false, objs);
    if p.ok {
      CallEnds(b, p, Apply(kinds, b, Delete(objs)).1);
    }
  }

  /** Objects that are already marked as deleted are only removed from the policy data; the store keeps them as they are. */
  lemma {:induction false} MarkedOnlyRemoved(kinds: set<string>, b: Db, ix: Index, changed: bool, objs: seq<Base>)
    requires ValidBucket(b) && AllProper(objs) && forall o :: o in objs ==> o.deleted
    ensures var p := DeleteObjects(kinds, b, ix, changed, objs);
      && p.ok && p.b == b
      && (forall id :: At(p.ix, id) == if GivenId(objs, id) then None else At(ix, id))
      && (p.changed <==> changed || exists o :: o in objs && At(ix, o.id).Some?)
    decreases |objs|
  {
    if objs != [] {
      var o, rest := objs[0], objs[1..];
      assert o in objs && forall x :: x in objs <==> x == o || x in rest;
      MarkedOnlyRemoved(kinds, b, Removed(ix, o.id), changed || At(ix, o.id).Some?, rest);
      forall id ensures GivenId(objs, id) <==> id == o.id || GivenId(rest, id) {
      }
      if x :| x in objs && At(ix, x.id).Some? && x.id != o.id {
        assert x in rest && At(Removed(ix, o.id), x.id).Some?;
      }
    }
  }

  /** InitPolicy on an empty store: agreement holds from the beginning. */
  lemma InitPolicyAgrees(n: nat)
    requires n + 1 < MAX_GENERATION
    ensures var b := Save(map[], POLICY_INFO, PolicyObject(FIRST_GEN, map[]), false).1;
      Initialised(b) && Last(b, POLICY_KEY).value.gen == FIRST_GEN && Room(b, n) && forall id :: ProperId(id) ==> InForce(b, id) == None
  {
    var empty: Db, obj := map[], PolicyObject(FIRST_GEN, map[]);
    PolicyKeyShape();
    SaveRoom(empty, POLICY_INFO, obj, n);
    var b := Save(empty, POLICY_INFO, obj, false).1;
    assert Path(POLICY_KEY, FIRST_GEN) in b;
    PathOfKey(empty, b, obj, Last(b, POLICY_KEY).value.gen);
    forall id | ProperId(id) ensures Current(b, id) == None {
      PolicyKeyDiffers(id);
      SaveLeavesOthers(empty, POLICY_INFO, obj, false, KeyOf(id));
    }
  }

  /** The reference leads to a stored language object of a known kind. */
  ghost predicate Resolves(kinds: set<string>, b: Db, id: ObjectId, gen: Generation)
    requires ValidBucket(b)
  {
    var found := Found(b, KeyOf(id), gen);
    found.Some? && found.value.content.Lang? && id.kind in kinds
  }

  /** The policy that an index refers to: the content of each object, by its id. */
  ghost predicate IsPolicyOf(kinds: set<string>, b: Db, ix: Index, objects: map<ObjectId, Content>)
    requires ValidBucket(b)
  {
    forall id ::
      && (id in objects <==> At(ix, id).Some?)
      && (id in objects ==> Resolves(kinds, b, id, At(ix, id).value)
                            && objects[id] == Found(b, KeyOf(id), At(ix, id).value).value.content)
  }

  /** What is rebuilt from the last policy data is exactly what is in force. */
  lemma RebuiltPolicyIsInForce(kinds: set<string>, b: Db, objects: map<ObjectId, Content>, id: ObjectId)
    requires Initialised(b) && IsPolicyOf(kinds, b, Last(b, POLICY_KEY).value.content.objects, objects)
    requires ProperId(id) && id.kind != POLICY_KIND
    ensures Lookup(objects, id) == InForce(b, id)
  {
    var ix := Last(b, POLICY_KEY).value.content.objects;
    assert At(ix, id) == if Current(b, id).Some? then Some(Current(b, id).value.gen) else None;
    assert id in objects <==> At(ix, id).Some?;
  }

  // ---- The operations as they are coded.

  class DefaultStore {
    const store: BoltStore<Content>
    const kinds: set<string>

    ghost predicate Valid()
      reads this, store
    {
      store.Valid() && store.registry == Registry(kinds) && POLICY_KIND !in kinds
    }

    constructor (kinds: set<string>)
      requires POLICY_KIND !in kinds
      ensures Valid() && this.kinds == kinds && store.bucket == map[] && fresh(store)
    {
      this.kinds := kinds;
      store := new BoltStore(Registry(kinds));
    }

    /** The decoded policy data are a new object: changing it does not change what is stored. */
    method GetPolicyData(gen: Generation) returns (stored: Option<Object<Content>>, data: PolicyData?)
      requires Valid()
      ensures stored == if Found(store.bucket, POLICY_KEY, gen).Some? && Found(store.bucket, POLICY_KEY, gen).value.content.Policy?
                        then Found(store.bucket, POLICY_KEY, gen) else None
      ensures stored.None? <==> data == null
      ensures data != null ==> fresh(data) && data.Objects == stored.value.content.objects && data.Generation == stored.value.gen
    {
      PolicyKeyShape();
      stored := store.GetGen(POLICY_KEY, gen);
      if stored.None? || !stored.value.content.Policy? {
        return None, null;
      }
      data := new PolicyData(stored.value.gen, stored.value.content.objects);
    }

    /** One reference of getPolicyFromData. */
    method ResolveReference(id: ObjectId, gen: Generation) returns (content: Option<Content>)
      requires Valid() && '@' !in KeyOf(id)
      ensures content.Some? <==> Resolves(kinds, store.bucket, id, gen)
      ensures content.Some? ==> content.value == Found(store.bucket, KeyOf(id), gen).value.content
    {
      var obj := store.GetGen(KeyOf(id), gen);
      content := None;
      if obj.Some? && obj.value.content.Lang? && id.kind in kinds {
        content := Some(obj.value.content);
      }
    }

    /** The innermost loop of getPolicyFromData: the names of one kind. */
    method AddKind(ns: string, kind: string, nameGen: map<string, Generation>, before: map<ObjectId, Content>)
      returns (ok: bool, objects: map<ObjectId, Content>)
      requires Valid() && forall name :: name in nameGen ==> '@' !in KeyOf(ObjectId(ns, kind, name))
      ensures ok <==> forall name :: name in nameGen ==> Resolves(kinds, store.bucket, ObjectId(ns, kind, name), nameGen[name])
      ensures ok ==> forall id ::
        Lookup(objects, id) ==
          if id.ns == ns && id.kind == kind && id.name in nameGen then Some(Found(store.bucket, KeyOf(id), nameGen[id.name]).value.content)
          else Lookup(before, id)
    {
      objects := before;
      var todo := nameGen.Keys;
      while todo != {}
        invariant todo <= nameGen.Keys
        invariant forall name :: name in nameGen && name !in todo ==> Resolves(kinds, store.bucket, ObjectId(ns, kind, name), nameGen[name])
        invariant forall id ::
          Lookup(objects, id) ==
            if id.ns == ns && id.kind == kind && id.name in nameGen && id.name !in todo
            then Some(Found(store.bucket, KeyOf(id), nameGen[id.name]).value.content) else Lookup(before, id)
      {
        var name :| name in todo;
        todo := todo - {name};
        var id := ObjectId(ns, kind, name);
        var content := ResolveReference(id, nameGen[name]);
        if content.None? {
          return false, objects;
        }
        objects := objects[id := content.value];
      }
      ok := true;
    }

    /** The middle loop: the kinds of one namespace. */
    method AddNamespace(ns: string, kindNameGen: map<string, map<string, Generation>>, before: map<ObjectId, Content>)
      returns (ok: bool, objects: map<ObjectId, Content>)
      requires Valid()
      requires forall kind, name :: kind in kindNameGen && name in kindNameGen[kind] ==> '@' !in KeyOf(ObjectId(ns, kind, name))
      ensures ok <==> forall kind, name :: kind in kindNameGen && name in kindNameGen[kind] ==>
        Resolves(kinds, store.bucket, ObjectId(ns, kind, name), kindNameGen[kind][name])
      ensures ok ==> forall id ::
        Lookup(objects, id) ==
          if id.ns == ns && id.kind in kindNameGen && id.name in kindNameGen[id.kind]
          then Some(Found(store.bucket, KeyOf(id), kindNameGen[id.kind][id.name]).value.content) else Lookup(before, id)
    {
      objects := before;
      var todo := kindNameGen.Keys;
      while todo != {}
        invariant todo <= kindNameGen.Keys
        invariant forall kind, name :: kind in kindNameGen && kind !in todo && name in kindNameGen[kind] ==>
          Resolves(kinds, store.bucket, ObjectId(ns, kind, name), kindNameGen[kind][name])
        invariant forall id ::
          Lookup(objects, id) ==
            if id.ns == ns && id.kind in kindNameGen && id.kind !in todo && id.name in kindNameGen[id.kind]
            then Some(Found(store.bucket, KeyOf(id), kindNameGen[id.kind][id.name]).value.content) else Lookup(before, id)
      {
        var kind :| kind in todo;
        todo := todo - {kind};
        ok, objects := AddKind(ns, kind, kindNameGen[kind], objects);
        if !ok {
          return;
        }
      }
      ok := true;
    }

    /** The policy is rebuilt if all references of the policy data resolve, and then it is what they refer to. */
    method GetPolicyFromData(policyData: PolicyData) returns (ok: bool, objects: map<ObjectId, Content>)
      requires Valid() && forall id :: At(policyData.Objects, id).Some? ==> '@' !in KeyOf(id)
      ensures ok <==> forall id :: At(policyData.Objects, id).Some? ==> Resolves(kinds, store.bucket, id, At(policyData.Objects, id).value)
      ensures ok ==> IsPolicyOf(kinds, store.bucket, policyData.Objects, objects)
    {
      objects := map[];
      var ix := policyData.Objects;
      var todo := ix.Keys;
      while todo != {}
        invariant todo <= ix.Keys
        invariant forall id :: At(ix, id).Some? && id.ns !in todo ==> Resolves(kinds, store.bucket, id, At(ix, id).value)
        invariant forall id ::
          Lookup(objects, id) ==
            if At(ix, id).Some? && id.ns !in todo then Some(Found(store.bucket, KeyOf(id), At(ix, id).value).value.content) else None
      {
        var ns :| ns in todo;
        todo := todo - {ns};
        forall kind, name | kind in ix[ns] && name in ix[ns][kind] ensures At(ix, ObjectId(ns, kind, name)) == Some(ix[ns][kind][name]) {
        }
        ok, objects := AddNamespace(ns, ix[ns], objects);
        if !ok {
          return;
        }
      }
      ok := true;
      forall id ensures id in objects <==> At(ix, id).Some? {
        assert Lookup(objects, id).Some? <==> At(ix, id).Some?;
      }
    }

    method SaveBaseObject(o: Base) returns (r: SaveResult<Content>)
      requires Valid() && ProperId(o.id) && o.id.kind != POLICY_KIND
      modifies store
      ensures Valid() && (r, store.bucket) == SaveBase(kinds, old(store.bucket), o)
    {
      KeyShape(o.id);
      r := store.SaveObject(ToObject(o), false);
    }

    /** One round of the loop of UpdatePolicy. */
    method UpdateNext(policyData: PolicyData, updatedObj: Base, before: bool, ghost objs: seq<Base>) returns (ok: bool, changed: bool)
      requires Valid() && AllProper(objs) && objs != [] && objs[0] == updatedObj
      modifies store, policyData`Objects
      ensures Valid()
      ensures UpdateObjects(kinds, old(store.bucket), old(policyData.Objects), before, objs) ==
        if ok then UpdateObjects(kinds, store.bucket, policyData.Objects, changed, objs[1..])
        else Progress(false, store.bucket, policyData.Objects, changed)
    {
      assert updatedObj in objs;
      ok, changed := false, before;
      if updatedObj.deleted {
        return;
      }
      var saved := SaveBaseObject(updatedObj);
      if saved.NotSaved? {
        return;
      }
      if saved.updated {
        policyData.Add(updatedObj.id, saved.obj.gen);
        changed := true;
      }
      ok := true;
    }

    /** The loop of UpdatePolicy. */
    method UpdateAll(policyData: PolicyData, updatedObjects: seq<Base>) returns (ok: bool, changed: bool)
      requires Valid() && AllProper(updatedObjects)
      modifies store, policyData`Objects
      ensures Valid()
      ensures UpdateObjects(kinds, old(store.bucket), old(policyData.Objects), false, updatedObjects)
           == Progress(ok, store.bucket, policyData.Objects, changed)
    {
      ghost var p := UpdateObjects(kinds, store.bucket, policyData.Objects, false, updatedObjects);
      changed := false;
      var i := 0;
      while i < |updatedObjects|
        invariant 0 <= i <= |updatedObjects| && Valid()
        invariant p == UpdateObjects(kinds, store.bucket, policyData.Objects, changed, updatedObjects[i..])
      {
        assert updatedObjects[i..][0] == updatedObjects[i] && updatedObjects[i..][1..] == updatedObjects[i + 1..];
        ok, changed := UpdateNext(policyData, updatedObjects[i], changed, updatedObjects[i..]);
        if !ok {
          return;
        }
        i := i + 1;
      }
      ok := true;
    }

    method UpdatePolicy(updatedObjects: seq<Base>) returns (r: Outcome)
      requires Valid() && AllProper(updatedObjects)
      modifies store
      ensures Valid() && (r, store.bucket) == Apply(kinds, old(store.bucket), Update(updatedObjects))
    {
      var last, policyData := GetPolicyData(LAST_GEN);
      if policyData == null {
        return Failed; // panic
      }
      var ok, changed := UpdateAll(policyData, updatedObjects);
      if !ok {
        return Failed;
      }
      if changed {
        SavePolicyData(policyData);
      }
      r := Done(changed);
    }

    method SavePolicyData(data: PolicyData)
      requires Valid()
      modifies store
      ensures Valid() && store.bucket == Save(old(store.bucket), POLICY_INFO, PolicyObject(data.Generation, data.Objects), false).1
    {
      PolicyKeyShape();
      var saved := store.SaveObject(PolicyObject(data.Generation, data.Objects), false);
    }

    /** One round of the loop of DeleteFromPolicy. */
    method RemoveAndMark(policyData: PolicyData, obj: Base) returns (removed: bool, ok: bool)
      requires Valid() && ProperId(obj.id) && obj.id.kind != POLICY_KIND
      modifies store, policyData`Objects
      ensures Valid() && policyData.Objects == Removed(old(policyData.Objects), obj.id)
      ensures removed == At(old(policyData.Objects), obj.id).Some?
      ensures var (r, b) := SaveBase(kinds, old(store.bucket), obj.(deleted := true));
        if obj.deleted then ok && store.bucket == old(store.bucket) else ok == r.Saved? && store.bucket == b
    {
      removed := policyData.Remove(obj.id);
      ok := true;
      if !obj.deleted {
        var saved := SaveBaseObject(obj.(deleted := true));
        ok := saved.Saved?;
      }
    }

    method RemoveNext(policyData: PolicyData, obj: Base, changed: bool, ghost objs: seq<Base>) returns (ok: bool, policyChanged: bool)
      requires Valid() && AllProper(objs) && objs != [] && objs[0] == obj
      modifies store, policyData`Objects
      ensures Valid()
      ensures DeleteObjects(kinds, old(store.bucket), old(policyData.Objects), changed, objs) ==
        if ok then DeleteObjects(kinds, store.bucket, policyData.Objects, policyChanged, objs[1..])
        else Progress(false, store.bucket, policyData.Objects, policyChanged)
    {
      assert obj in objs;
      var removed;
      removed, ok := RemoveAndMark(policyData, obj);
      policyChanged := changed || removed;
    }

    /** The loop of DeleteFromPolicy. */
    method RemoveAll(policyData: PolicyData, deleted: seq<Base>) returns (ok: bool, policyChanged: bool)
      requires Valid() && AllProper(deleted)
      modifies store, policyData`Objects
      ensures Valid()
      ensures DeleteObjects(kinds, old(store.bucket), old(policyData.Objects), false, deleted)
           == Progress(ok, store.bucket, policyData.Objects, policyChanged)
    {
      ghost var p := DeleteObjects(kinds, store.bucket, policyData.Objects, false, deleted);
      policyChanged := false;
      var i := 0;
      while i < |deleted|
        invariant 0 <= i <= |deleted| && Valid()
        invariant p == DeleteObjects(kinds, store.bucket, policyData.Objects, policyChanged, deleted[i..])
      {
        assert deleted[i..][0] == deleted[i] && deleted[i..][1..] == deleted[i + 1..];
        ok, policyChanged := RemoveNext(policyData, deleted[i], policyChanged, deleted[i..]);
        if !ok {
          return;
        }
        i := i + 1;
      }
      ok := true;
    }

    method DeleteFromPolicy(deleted: seq<Base>) returns (r: Outcome)
      requires Valid() && AllProper(deleted)
      modifies store
      ensures Valid() && (r, store.bucket) == Apply(kinds, old(store.bucket), Delete(deleted))
    {
      var last, policyData := GetPolicyData(LAST_GEN);
      if policyData == null {
        return Failed; // nil dereference
      }
      var ok, policyChanged := RemoveAll(policyData, deleted);
      if !ok {
        return Failed;
      }
      if policyChanged {
        SavePolicyData(policyData);
      }
      r := Done(policyChanged);
    }
  }
}

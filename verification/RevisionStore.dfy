/** The revisions of the queue in the versioned store: one key, one generation for each revision. */
module RevisionStore {
  import opened Prelude
  import opened Generations
  import opened BoltStore
  import opened RevisionQueue

  /** There is one revision object, with a generation for each revision. */
  const REVISION_KEY := "system/revision/"
  const REVISION_INFO := Info(true, false)

  type Db = Bucket<Revision>

  function ToObject(gen: Generation, r: Revision): Object<Revision> {
    Object("revision", REVISION_KEY, gen, false, r)
  }

  /** The store has exactly these revisions. */
  ghost predicate Stores(b: Db, revs: seq<Revision>) {
    && ValidBucket(b) && |revs| < MAX_GENERATION
    && forall g: Generation :: Stored(b, REVISION_KEY, g) == if 1 <= g <= |revs| then Some(ToObject(g, revs[g - 1])) else None
  }

  lemma {:induction false} LastRevision(b: Db, revs: seq<Revision>, n: Generation)
    requires Stores(b, revs) && n >= |revs|
    ensures LastUpTo(b, REVISION_KEY, n) == if revs == [] then None else Some(ToObject(|revs|, revs[|revs| - 1]))
  {
    assert Stored(b, REVISION_KEY, n) == if 1 <= n <= |revs| then Some(ToObject(n, revs[n - 1])) else None;
    if n > |revs| {
      LastRevision(b, revs, n - 1);
    }
  }

  lemma KeyIsPlain()
    ensures '@' !in REVISION_KEY
  {
  }

  /** UpdateRevision puts the new value in place of the old one. */
  lemma UpdateStored(b: Db, revs: seq<Revision>, i: nat, r: Revision)
    requires Stores(b, revs) && i < |revs|
    ensures var (res, b') := Save(b, REVISION_INFO, ToObject(i + 1, r), true);
      res == Saved(false, ToObject(i + 1, r)) && Stores(b', revs[i := r])
  {
    var obj := ToObject(i + 1, r);
    KeyIsPlain();
    assert Stored(b, REVISION_KEY, i + 1) == Some(ToObject(i + 1, revs[i]));
    UpdatedInPlace(b, REVISION_INFO, obj);
    var b' := Save(b, REVISION_INFO, obj, true).1;
    forall g: Generation ensures Stored(b', REVISION_KEY, g) == if 1 <= g <= |revs| then Some(ToObject(g, revs[i := r][g - 1])) else None {
      assert Stored(b, REVISION_KEY, g) == if 1 <= g <= |revs| then Some(ToObject(g, revs[g - 1])) else None;
      if Path(REVISION_KEY, g) == Path(REVISION_KEY, i + 1) {
        PathInjective(REVISION_KEY, g, REVISION_KEY, i + 1);
      }
    }
  }

  /** NewRevision saves the next generation. */
  lemma AddStored(b: Db, revs: seq<Revision>, r: Revision)
    requires Stores(b, revs) && |revs| + 1 < MAX_GENERATION
    ensures var (res, b') := Save(b, REVISION_INFO, ToObject(NextRevision(b), r), false);
      res == Saved(true, ToObject(|revs| + 1, r)) && Stores(b', revs + [r])
  {
    NextIsFree(b, revs);
    KeyIsPlain();
    NewIsStored(b, REVISION_INFO, ToObject(|revs| + 1, r), false);
    RefusedIff(b, REVISION_INFO, ToObject(|revs| + 1, r), false);
    OneMoreStored(b, revs, r, Save(b, REVISION_INFO, ToObject(|revs| + 1, r), false).1);
  }

  lemma NextIsFree(b: Db, revs: seq<Revision>)
    requires Stores(b, revs) && |revs| + 1 < MAX_GENERATION
    ensures NextRevision(b) == |revs| + 1 && Found(b, REVISION_KEY, |revs| + 1).None?
  {
    LastRevision(b, revs, MAX_GENERATION);
    assert Stored(b, REVISION_KEY, |revs| + 1) == None;
  }

  lemma OneMoreStored(b: Db, revs: seq<Revision>, r: Revision, b': Db)
    requires Stores(b, revs) && |revs| + 1 < MAX_GENERATION && ValidBucket(b') && OnlyStored(b, b', ToObject(|revs| + 1, r))
    ensures Stores(b', revs + [r])
  {
    forall g: Generation ensures Stored(b', REVISION_KEY, g) == if 1 <= g <= |revs| + 1 then Some(ToObject(g, (revs + [r])[g - 1])) else None {
      assert Stored(b, REVISION_KEY, g) == if 1 <= g <= |revs| then Some(ToObject(g, revs[g - 1])) else None;
      if Path(REVISION_KEY, g) == Path(REVISION_KEY, |revs| + 1) {
        PathInjective(REVISION_KEY, g, REVISION_KEY, |revs| + 1);
      }
    }
  }

  /** The generation of a new revision. */
  ghost function NextRevision(b: Db): Generation
    requires ValidBucket(b)
  {
    var last := Last(b, REVISION_KEY);
    if last.None? then FIRST_GEN else Next(last.value.gen)
  }

  ghost function WithNew(b: Db, r: Revision): Db
    requires ValidBucket(b)
  {
    Save(b, REVISION_INFO, ToObject(NextRevision(b), r), false).1
  }

  lemma NewIsLast(b: Db, revs: seq<Revision>, r: Revision)
    requires Stores(b, revs) && |revs| + 1 < MAX_GENERATION
    ensures Stores(WithNew(b, r), revs + [r])
  {
    AddStored(b, revs, r);
  }

  // ---- The calls on the store that the steps of the queue make.

  /** What a step writes: a new revision, or a new value for the revision being processed. */
  ghost function Written(b: Db, s: State, step: Step, t: State): Db
    requires ValidBucket(b)
  {
    if step.AddRevision? || step.AddEnforceRevision? then
      if t.revs == [] then b else WithNew(b, t.revs[|t.revs| - 1])
    else if Rewrites(step) then
      var i := WrittenIndex(s);
      if i < |t.revs| && i < MAX_GENERATION then Save(b, REVISION_INFO, ToObject(i + 1, t.revs[i]), true).1 else b
    else b
  }

  function WrittenIndex(s: State): nat {
    match s.enforcer
    case Picked(i) => i
    case WasReset(i) => i
    case Applying(i) => i
    case Applied(i) => i
    case _ => |s.revs|
  }

  /** After each step the store has the revisions of the queue again. */
  lemma StepIsStored(atomicApi: bool, b: Db, s: State, step: Step)
    requires Stores(b, s.revs) && Enabled(atomicApi, s, step) && |s.revs| + 1 < MAX_GENERATION
    ensures var t := Do(atomicApi, s, step);
      ValidBucket(Written(b, s, step, t)) && Stores(Written(b, s, step, t), t.revs)
  {
    if step.AddRevision? || step.AddEnforceRevision? {
      AddedIsStored(atomicApi, b, s, step);
    } else if Rewrites(step) {
      RewrittenIsStored(atomicApi, b, s, step);
    } else {
      WritesNothing(atomicApi, s, step);
    }
  }

  lemma AddedIsStored(atomicApi: bool, b: Db, s: State, step: Step)
    requires Stores(b, s.revs) && Enabled(atomicApi, s, step) && |s.revs| + 1 < MAX_GENERATION
    requires step.AddRevision? || step.AddEnforceRevision?
    ensures var t := Do(atomicApi, s, step);
      ValidBucket(Written(b, s, step, t)) && Stores(Written(b, s, step, t), t.revs)
  {
    var r := NewRevision(if step.AddRevision? then s.policyGen else step.policyGen);
    var t := Do(atomicApi, s, step);
    assert t.revs == s.revs + [r] && t.revs[|t.revs| - 1] == r;
    NewIsLast(b, s.revs, r);
  }

  lemma RewrittenIsStored(atomicApi: bool, b: Db, s: State, step: Step)
    requires Stores(b, s.revs) && Enabled(atomicApi, s, step) && Rewrites(step)
    ensures var t := Do(atomicApi, s, step);
      ValidBucket(Written(b, s, step, t)) && Stores(Written(b, s, step, t), t.revs)
  {
    var i := WrittenIndex(s);
    RewritesOne(atomicApi, s, step);
    UpdateStored(b, s.revs, i, Do(atomicApi, s, step).revs[i]);
  }

  predicate Rewrites(step: Step) {
    step.Reset? || step.Start? || step.CountAction? || step.Finish? || step.SaveLog?
  }

  lemma RewritesOne(atomicApi: bool, s: State, step: Step)
    requires Enabled(atomicApi, s, step) && Rewrites(step)
    ensures var t, i := Do(atomicApi, s, step), WrittenIndex(s);
      i < |s.revs| && |t.revs| == |s.revs| && t.revs == s.revs[i := t.revs[i]]
  {
  }

  lemma WritesNothing(atomicApi: bool, s: State, step: Step)
    requires Enabled(atomicApi, s, step) && !Rewrites(step) && !step.AddRevision? && !step.AddEnforceRevision?
    ensures Do(atomicApi, s, step).revs == s.revs
  {
  }

  /** The store after the writes of a run. */
  ghost predicate StoreLeads(atomicApi: bool, b: Db, s: State, steps: seq<Step>, b': Db)
    decreases |steps|
  {
    if steps == [] then b' == b
    else
      && Enabled(atomicApi, s, steps[0]) && ValidBucket(b)
      && var t := Do(atomicApi, s, steps[0]);
      StoreLeads(atomicApi, Written(b, s, steps[0], t), t, steps[1..], b')
  }

  /** Over any run, as long as generations last, the store has exactly the revisions of the queue. */
  lemma {:induction false} QueueIsStored(atomicApi: bool, b: Db, s: State, steps: seq<Step>, t: State, b': Db)
    requires Stores(b, s.revs) && Leads(atomicApi, s, steps, t) && StoreLeads(atomicApi, b, s, steps, b')
    requires |s.revs| + |steps| < MAX_GENERATION
    ensures Stores(b', t.revs)
    decreases |steps|
  {
    if steps != [] {
      var u := Do(atomicApi, s, steps[0]);
      StepIsStored(atomicApi, b, s, steps[0]);
      QueueIsStored(atomicApi, Written(b, s, steps[0], u), u, steps[1..], t, b');
    }
  }
}

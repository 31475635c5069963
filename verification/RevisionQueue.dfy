/**
 The queue of revisions: API requests add revisions, the enforcer processes them one at a time and may
 crash anywhere. Revisions are numbered from 0 here; the generation of a revision is one more.
 */
module RevisionQueue {

  datatype Status = Waiting | InProgress | Completed | Error

  datatype Revision = Revision(policyGen: nat, status: Status, failed: nat, success: nat) {
    predicate Finished() {
      status == Completed || status == Error
    }

    predicate NeedsRetry() {
      status == Error || (status == Completed && failed > 0)
    }
  }

  /** What the enforcer has learned and does next. */
  datatype Enforcer =
    | Idle
    | NoneUnprocessed(known: nat)                 // the scan over that many revisions has found no unfinished one
    | PolicyRead(known: nat, policyGen: nat)      // and the last policy generation has been read since
    | Picked(rev: nat)                            // revision loaded
    | WasReset(rev: nat)                          // saved as waiting, with an empty result
    | Applying(rev: nat)                          // saved as in progress
    | Applied(rev: nat)                           // saved as completed, apply log not saved yet

  datatype State = State(
    policyGen: nat,          // last policy generation
    changing: bool,          // a request has saved the policy and is about to add its revision
    revs: seq<Revision>,
    enforcer: Enforcer,
    started: seq<nat>        // revisions in the order in which the enforcer has started them
  )

  datatype Step =
    | SavePolicy                       // first half of a policy change
    | AddRevision                      // second half, under the same mutex
    | ChangeFails                      // the revision cannot be created
    | AddEnforceRevision(policyGen: nat) // a revision that enforces the state again, for the policy generation read before
    | Scan
    | ReadPolicy
    | ReadLast
    | Reset
    | Start
    | CountAction(ok: bool)
    | Finish
    | SaveLog
    | Stop                             // an error, a panic or a crash: the stored state stays

  function NewRevision(policyGen: nat): Revision {
    Revision(policyGen, Waiting, 0, 0)
  }

  /** GetFirstUnprocessedRevision, as an index; |revs| if there is none. */
  function FirstUnprocessed(revs: seq<Revision>): (i: nat)
    ensures i <= |revs| && (forall j :: 0 <= j < i ==> revs[j].Finished()) && (i < |revs| ==> !revs[i].Finished())
  {
    if revs == [] then 0 else if !revs[0].Finished() then 0 else 1 + FirstUnprocessed(revs[1..])
  }

  /** GetLastRevisionForPolicy, as an index; |revs| if there is none. */
  function LastForPolicy(revs: seq<Revision>, policyGen: nat): (i: nat)
    ensures i <= |revs| && (i < |revs| ==> revs[i].policyGen == policyGen)
    ensures forall j :: 0 <= j < |revs| && revs[j].policyGen == policyGen ==> j <= i < |revs|
  {
    if revs == [] then 0
    else if revs[|revs| - 1].policyGen == policyGen then |revs| - 1
    else
      var i := LastForPolicy(revs[..|revs| - 1], policyGen);
      if i == |revs| - 1 then |revs| else i
  }

  /** The scan over all revisions, which keeps the unfinished one of the least generation. */
  method GetFirstUnprocessedRevision(revisions: seq<Revision>) returns (result: nat)
    ensures result == FirstUnprocessed(revisions)
  {
    var found, i := false, 0;
    result := |revisions|;
    while i < |revisions|
      invariant 0 <= i <= |revisions|
      invariant if found then result < i && !revisions[result].Finished() else result == |revisions|
      invariant forall j :: 0 <= j < i && !revisions[j].Finished() ==> found && result <= j
    {
      if !revisions[i].Finished() {
        if !found || i < result {
          found, result := true, i;
        }
      }
      i := i + 1;
    }
  }

  /** The scan over all revisions, which keeps the one for the policy with the greatest generation. */
  method GetLastRevisionForPolicy(revisions: seq<Revision>, policyGen: nat) returns (result: nat)
    ensures result == LastForPolicy(revisions, policyGen)
  {
    var found, i := false, 0;
    result := |revisions|;
    while i < |revisions|
      invariant 0 <= i <= |revisions|
      invariant if found then result < i && revisions[result].policyGen == policyGen else result == |revisions|
      invariant forall j :: 0 <= j < i && revisions[j].policyGen == policyGen ==> found && j <= result
    {
      if revisions[i].policyGen == policyGen {
        if !found || i > result {
          found, result := true, i;
        }
      }
      i := i + 1;
    }
  }

  predicate IsLastFor(revisions: seq<Revision>, policyGen: nat, i: nat)
    requires i < |revisions|
  {
    revisions[i].policyGen == policyGen && forall j :: i < j < |revisions| ==> revisions[j].policyGen != policyGen
  }

  /**
   The revision to be processed next: the first that is waiting or in progress; with none of these, the last one
   for the policy, if it has ended in an error or was completed with actions that failed.
   */
  method GetRevisionForProcessing(revisions: seq<Revision>, policyGen: nat) returns (result: nat)
    ensures result <= |revisions|
    ensures (exists j :: 0 <= j < |revisions| && revisions[j].status in [Waiting, InProgress]) ==>
      && result < |revisions| && revisions[result].status in [Waiting, InProgress]
      && forall j :: 0 <= j < result ==> revisions[j].status in [Completed, Error]
    ensures (forall j :: 0 <= j < |revisions| ==> revisions[j].status in [Completed, Error]) ==>
      forall i :: 0 <= i < |revisions| ==>
        (result == i <==> IsLastFor(revisions, policyGen, i) && (revisions[i].status == Error || revisions[i].failed > 0))
  {
    result := GetFirstUnprocessedRevision(revisions);
    if result < |revisions| {
      return;
    }
    var last := GetLastRevisionForPolicy(revisions, policyGen);
    if last < |revisions| && revisions[last].NeedsRetry() {
      return last;
    }
    result := |revisions|;
  }

  /** Policy generations that a state-enforcing request may use: the current one if the request is atomic, otherwise any older one too. */
  predicate MayEnforce(atomicApi: bool, s: State, policyGen: nat) {
    if atomicApi then policyGen == s.policyGen && !s.changing else policyGen <= s.policyGen && !s.changing
  }

  predicate Enabled(atomicApi: bool, s: State, step: Step) {
    match step
    case SavePolicy => !s.changing
    case AddRevision => s.changing
    case ChangeFails => s.changing
    case AddEnforceRevision(g) => MayEnforce(atomicApi, s, g)
    case Scan => s.enforcer.Idle?
    case ReadPolicy => s.enforcer.NoneUnprocessed?
    case ReadLast => s.enforcer.PolicyRead?
    case Reset => s.enforcer.Picked? && s.enforcer.rev < |s.revs|
    case Start => s.enforcer.WasReset? && s.enforcer.rev < |s.revs|
    case CountAction(_) => s.enforcer.Applying? && s.enforcer.rev < |s.revs|
    case Finish => s.enforcer.Applying? && s.enforcer.rev < |s.revs|
    case SaveLog => s.enforcer.Applied? && s.enforcer.rev < |s.revs|
    case Stop => true
  }

  /** UpdateRevision. */
  function WithRevision(s: State, i: nat, r: Revision, enforcer: Enforcer): State
    requires i < |s.revs|
  {
    s.(revs := s.revs[i := r], enforcer := enforcer)
  }

  function Do(atomicApi: bool, s: State, step: Step): State
    requires Enabled(atomicApi, s, step)
  {
    match step
    case SavePolicy => s.(policyGen := s.policyGen + 1, changing := true)
    case AddRevision => s.(revs := s.revs + [NewRevision(s.policyGen)], changing := false)
    case ChangeFails => s.(changing := false)
    case AddEnforceRevision(g) => s.(revs := s.revs + [NewRevision(g)])
    case Scan =>
      var i := FirstUnprocessed(s.revs);
      s.(enforcer := if i < |s.revs| then Picked(i) else NoneUnprocessed(|s.revs|))
    case ReadPolicy => s.(enforcer := PolicyRead(s.enforcer.known, s.policyGen))
    case ReadLast =>
      var i := LastForPolicy(s.revs, s.enforcer.policyGen);
      s.(enforcer := if i < |s.revs| && s.revs[i].NeedsRetry() then Picked(i) else Idle)
    case Reset =>
      var i := s.enforcer.rev;
      WithRevision(s, i, s.revs[i].(status := Waiting, failed := 0, success := 0), WasReset(i))
    case Start =>
      var i := s.enforcer.rev;
      WithRevision(s, i, s.revs[i].(status := InProgress), Applying(i)).(started := s.started + [i])
    case CountAction(ok) =>
      var i := s.enforcer.rev;
      var r := s.revs[i];
      WithRevision(s, i, if ok then r.(success := r.success + 1) else r.(failed := r.failed + 1), s.enforcer)
    case Finish =>
      var i := s.enforcer.rev;
      WithRevision(s, i, s.revs[i].(status := Completed), Applied(i))
    case SaveLog =>
      var i := s.enforcer.rev;
      WithRevision(s, i, s.revs[i], Idle)
    case Stop => s.(enforcer := Idle)
  }

  /** After InitPolicy: one policy generation and one revision for it. */
  const INIT := State(1, false, [NewRevision(1)], Idle, [])

  ghost predicate Leads(atomicApi: bool, s: State, steps: seq<Step>, t: State)
    decreases |steps|
  {
    if steps == [] then s == t
    else Enabled(atomicApi, s, steps[0]) && Leads(atomicApi, Do(atomicApi, s, steps[0]), steps[1..], t)
  }

  ghost predicate Reachable(atomicApi: bool, s: State) {
    exists steps :: Leads(atomicApi, INIT, steps, s)
  }

  /** The request does not go back behind the policy of the last revision. */
  predicate Admissible(s: State, step: Step) {
    step.AddEnforceRevision? ==> (s.revs == [] || step.policyGen >= s.revs[|s.revs| - 1].policyGen)
  }

  // ---- The invariant of admissible requests.

  ghost predicate Monotone(s: State) {
    && (forall i, j :: 0 <= i < j < |s.revs| ==> s.revs[i].policyGen <= s.revs[j].policyGen)
    && (forall i :: 0 <= i < |s.revs| ==> s.revs[i].policyGen <= s.policyGen)
  }

  /** The finished revisions come first. */
  ghost predicate FinishedFirst(s: State) {
    forall i, j :: 0 <= i < j < |s.revs| && s.revs[j].Finished() ==> s.revs[i].Finished()
  }

  /** Exactly the first n revisions are finished. */
  ghost predicate FinishedAreFirst(s: State, n: nat) {
    n <= |s.revs| && forall i :: 0 <= i < |s.revs| ==> (s.revs[i].Finished() <==> i < n)
  }

  ghost predicate AllFinishedBelow(s: State, n: nat) {
    n <= |s.revs| && forall i :: 0 <= i < n ==> s.revs[i].Finished()
  }

  ghost predicate NoneFinishedFrom(s: State, n: nat) {
    forall i :: n <= i < |s.revs| ==> !s.revs[i].Finished()
  }

  ghost predicate EnforcerFits(s: State) {
    match s.enforcer
    case Idle => true
    case NoneUnprocessed(n) => AllFinishedBelow(s, n) && NoneFinishedFrom(s, n)
    case PolicyRead(n, g) =>
      AllFinishedBelow(s, n) && NoneFinishedFrom(s, n) && (forall i :: 0 <= i < n ==> s.revs[i].policyGen <= g)
    case Picked(i) => i < |s.revs| && AllFinishedBelow(s, i) && NoneFinishedFrom(s, i + 1)
    case WasReset(i) => i < |s.revs| && AllFinishedBelow(s, i) && NoneFinishedFrom(s, i)
    case Applying(i) => i < |s.revs| && AllFinishedBelow(s, i) && NoneFinishedFrom(s, i)
    case Applied(i) => i < |s.revs| && AllFinishedBelow(s, i + 1) && NoneFinishedFrom(s, i + 1)
  }

  /** Everything below a revision that has been started once is finished, and revisions are started in order. */
  ghost predicate StartedInOrder(s: State) {
    && (forall k, l :: 0 <= k < l < |s.started| ==> s.started[k] <= s.started[l])
    && (forall k :: 0 <= k < |s.started| ==> AllFinishedBelow(s, s.started[k]) && s.started[k] < |s.revs|)
    && (s.enforcer.Picked? || s.enforcer.WasReset? ==> forall k :: 0 <= k < |s.started| ==> s.started[k] <= s.enforcer.rev)
    && (s.enforcer.NoneUnprocessed? || s.enforcer.PolicyRead? ==> forall k :: 0 <= k < |s.started| ==> s.started[k] < s.enforcer.known)
  }

  ghost predicate Inv(s: State) {
    Monotone(s) && FinishedFirst(s) && EnforcerFits(s) && StartedInOrder(s)
  }

  lemma StepInv(s: State, step: Step)
    requires Inv(s) && Enabled(false, s, step) && Admissible(s, step)
    ensures Inv(Do(false, s, step))
  {
    match step
    case Scan => ScanInv(s);
    case ReadLast => ReadLastInv(s);
    case Reset => ResetInv(s);
    case Start => StartInv(s);
    case CountAction(_) => ApplyInv(s, step);
    case Finish => ApplyInv(s, step);
    case SaveLog => ApplyInv(s, step);
    case AddRevision => AddedInv(s, s.policyGen, false);
    case AddEnforceRevision(g) => AddedInv(s, g, s.changing);
    case _ => OtherInv(s, step);
  }

  /** A revision is added at the end. */
  lemma AddedInv(s: State, policyGen: nat, changing: bool)
    requires Inv(s) && policyGen <= s.policyGen && (s.revs == [] || policyGen >= s.revs[|s.revs| - 1].policyGen)
    ensures Inv(s.(revs := s.revs + [NewRevision(policyGen)], changing := changing))
  {
    var t := s.(revs := s.revs + [NewRevision(policyGen)], changing := changing);
    forall i, j | 0 <= i < j < |t.revs| ensures t.revs[i].policyGen <= t.revs[j].policyGen {
      if j == |s.revs| {
        assert i < |s.revs| - 1 ==> s.revs[i].policyGen <= s.revs[|s.revs| - 1].policyGen;
      }
    }
    AddedFits(s, t, policyGen);
  }

  lemma AddedFits(s: State, t: State, policyGen: nat)
    requires FinishedFirst(s) && EnforcerFits(s) && StartedInOrder(s)
    requires t == s.(revs := s.revs + [NewRevision(policyGen)], changing := t.changing)
    ensures FinishedFirst(t) && EnforcerFits(t) && StartedInOrder(t)
  {
  }

  lemma OtherInv(s: State, step: Step)
    requires Inv(s) && Enabled(false, s, step) && (step.SavePolicy? || step.ChangeFails? || step.ReadPolicy? || step.Stop?)
    ensures Inv(Do(false, s, step))
  {
  }

  lemma ScanInv(s: State)
    requires Inv(s) && s.enforcer.Idle?
    ensures Inv(Do(false, s, Scan))
  {
  }

  /** The revision to be retried is the last one that was there when the scan found nothing unfinished. */
  lemma ReadLastInv(s: State)
    requires Inv(s) && s.enforcer.PolicyRead?
    ensures Inv(Do(false, s, ReadLast))
  {
    var n, g := s.enforcer.known, s.enforcer.policyGen;
    var i := LastForPolicy(s.revs, g);
    if i < |s.revs| && s.revs[i].NeedsRetry() {
      assert i < n;
      assert s.revs[n - 1].policyGen == g;
      assert i == n - 1;
    }
  }

  lemma ResetInv(s: State)
    requires Inv(s) && Enabled(false, s, Reset)
    ensures Inv(Do(false, s, Reset))
  {
  }

  lemma StartInv(s: State)
    requires Inv(s) && Enabled(false, s, Start)
    ensures Inv(Do(false, s, Start))
  {
  }

  lemma ApplyInv(s: State, step: Step)
    requires Inv(s) && Enabled(false, s, step) && (step.CountAction? || step.Finish? || step.SaveLog?)
    ensures Inv(Do(false, s, step))
  {
  }

  /** The exact condition: a request keeps the order if and only if it is admissible. */
  lemma RequestKeepsOrderIff(s: State, policyGen: nat)
    requires Inv(s) && Enabled(false, s, AddEnforceRevision(policyGen))
    ensures var t := Do(false, s, AddEnforceRevision(policyGen));
      && (Inv(t) <==> Admissible(s, AddEnforceRevision(policyGen)))
      && (Monotone(t) <==> Admissible(s, AddEnforceRevision(policyGen)))
  {
    var t, n := Do(false, s, AddEnforceRevision(policyGen)), |s.revs|;
    if Admissible(s, AddEnforceRevision(policyGen)) {
      AddedInv(s, policyGen, s.changing);
    } else {
      assert t.revs[n - 1] == s.revs[n - 1] && t.revs[n].policyGen == policyGen;
    }
  }

  /** All requests of the run are admissible when they come. */
  ghost predicate AllAdmissible(s: State, steps: seq<Step>)
    decreases |steps|
  {
    steps == [] || (Enabled(false, s, steps[0]) && Admissible(s, steps[0]) && AllAdmissible(Do(false, s, steps[0]), steps[1..]))
  }

  /** Policy generations are in order all along the run. */
  ghost predicate AlwaysMonotone(s: State, steps: seq<Step>)
    decreases |steps|
  {
    Monotone(s) && (steps == [] || (Enabled(false, s, steps[0]) && AlwaysMonotone(Do(false, s, steps[0]), steps[1..])))
  }

  /** So it is over whole runs: the policy generations stay in order if and only if all requests are admissible. */
  lemma {:induction false} OrderedIffAdmissible(s: State, steps: seq<Step>, t: State)
    requires Inv(s) && Leads(false, s, steps, t)
    ensures AlwaysMonotone(s, steps) <==> AllAdmissible(s, steps)
    ensures AllAdmissible(s, steps) ==> Inv(t)
    decreases |steps|
  {
    if steps != [] {
      var u := Do(false, s, steps[0]);
      if Admissible(s, steps[0]) {
        StepInv(s, steps[0]);
        OrderedIffAdmissible(u, steps[1..], t);
      } else {
        RequestKeepsOrderIff(s, steps[0].policyGen);
      }
    }
  }

  /** Reached in some interleaving in which all requests are admissible. */
  ghost predicate ReachedInOrder(s: State) {
    exists steps :: Leads(false, INIT, steps, s) && AllAdmissible(INIT, steps)
  }

  /** Requests that read the policy generation inside the mutex are admissible. */
  lemma AtomicInOrder(s: State)
    requires Reachable(true, s)
    ensures ReachedInOrder(s)
  {
    var steps :| Leads(true, INIT, steps, s);
    AtomicAdmissible(INIT, steps, s);
  }

  lemma {:induction false} AtomicAdmissible(s: State, steps: seq<Step>, t: State)
    requires Inv(s) && Leads(true, s, steps, t)
    ensures Leads(false, s, steps, t) && AllAdmissible(s, steps)
    decreases |steps|
  {
    if steps != [] {
      StepInv(s, steps[0]);
      AtomicAdmissible(Do(true, s, steps[0]), steps[1..], t);
    }
  }

  /**
   The queue is kept in order, in every interleaving of admissible requests with the enforcer and its crashes
   and retries: policy generations are monotone, the finished revisions form a prefix, a revision is started
   only when all lower ones are finished, and later starts are never for lower revisions.
   */
  lemma QueueInOrder(s: State)
    requires ReachedInOrder(s)
    ensures forall i, j :: 0 <= i < j < |s.revs| ==> s.revs[i].policyGen <= s.revs[j].policyGen
    ensures exists n: nat :: FinishedAreFirst(s, n)
    ensures Enabled(false, s, Start) ==> forall i :: 0 <= i < s.enforcer.rev ==> s.revs[i].Finished()
    ensures Enabled(false, s, Start) ==> forall k :: 0 <= k < |s.started| ==> s.started[k] <= s.enforcer.rev
    ensures forall k, l :: 0 <= k < l < |s.started| ==> s.started[k] <= s.started[l]
  {
    ReachedInv(s);
    FinishedPrefix(s);
  }

  lemma InitInv()
    ensures Inv(INIT)
  {
  }

  lemma ReachedInv(s: State)
    requires ReachedInOrder(s)
    ensures Inv(s)
  {
    var steps :| Leads(false, INIT, steps, s) && AllAdmissible(INIT, steps);
    InitInv();
    OrderedIffAdmissible(INIT, steps, s);
  }

  lemma FinishedPrefix(s: State)
    requires FinishedFirst(s)
    ensures FinishedAreFirst(s, FirstUnprocessed(s.revs))
  {
  }

  // ---- The result of processing a revision.

  /** How many actions have been counted with the given outcome. */
  function Counted(steps: seq<Step>, ok: bool): nat {
    if steps == [] then 0 else (if steps[0] == CountAction(ok) then 1 else 0) + Counted(steps[1..], ok)
  }

  /** The enforcer is neither stopped nor done with its log. */
  ghost predicate Undisturbed(steps: seq<Step>) {
    forall x :: x in steps ==> !x.Stop? && !x.SaveLog?
  }

  /**
   A revision that has been picked, and has come to its end without a stop, is completed with exactly the actions
   counted in between, whatever its result was before and whatever requests come meanwhile.
   */
  lemma CompletedAsCounted(atomicApi: bool, s: State, steps: seq<Step>, t: State, i: nat)
    requires Leads(atomicApi, s, steps, t) && Undisturbed(steps) && i < |s.revs| && s.enforcer == Picked(i) && t.enforcer == Applied(i)
    ensures i < |t.revs| && t.revs[i] == Revision(s.revs[i].policyGen, Completed, Counted(steps, false), Counted(steps, true))
  {
    AppliedAsCounted(atomicApi, s, steps, t, i);
  }

  /** What the enforcer has made of the revision by the time it is done. */
  function Result(s: State, i: nat, steps: seq<Step>): Revision
    requires i < |s.revs|
  {
    var r := s.revs[i];
    match s.enforcer
    case Picked(_) => Revision(r.policyGen, Completed, Counted(steps, false), Counted(steps, true))
    case Applied(_) => Revision(r.policyGen, r.status, r.failed + Counted(steps, false), r.success + Counted(steps, true))
    case _ => Revision(r.policyGen, Completed, r.failed + Counted(steps, false), r.success + Counted(steps, true))
  }

  predicate WorksOn(s: State, i: nat) {
    s.enforcer in [Picked(i), WasReset(i), Applying(i), Applied(i)] && i < |s.revs|
  }

  lemma {:induction false} AppliedAsCounted(atomicApi: bool, s: State, steps: seq<Step>, t: State, i: nat)
    requires Leads(atomicApi, s, steps, t) && Undisturbed(steps) && WorksOn(s, i) && t.enforcer == Applied(i)
    ensures i < |t.revs| && t.revs[i] == Result(s, i, steps)
    decreases |steps|
  {
    if steps != [] {
      assert steps[0] in steps && forall x :: x in steps[1..] ==> x in steps;
      StepCounts(atomicApi, s, steps, i);
      AppliedAsCounted(atomicApi, Do(atomicApi, s, steps[0]), steps[1..], t, i);
    }
  }

  lemma StepCounts(atomicApi: bool, s: State, steps: seq<Step>, i: nat)
    requires steps != [] && Enabled(atomicApi, s, steps[0]) && !steps[0].Stop? && !steps[0].SaveLog? && WorksOn(s, i)
    ensures var u := Do(atomicApi, s, steps[0]); WorksOn(u, i) && Result(u, i, steps[1..]) == Result(s, i, steps)
  {
  }

  // ---- The revision of a policy change.

  /** A change of the policy is between its two halves. */
  ghost predicate BetweenHalves(steps: seq<Step>) {
    forall x :: x in steps ==> !x.AddRevision? && !x.ChangeFails?
  }

  /** The second half adds a waiting revision for the policy saved in the first one, whatever happens in between. */
  lemma {:induction false} ChangeIsQueued(atomicApi: bool, s: State, steps: seq<Step>, t: State)
    requires s.changing && Leads(atomicApi, s, steps, t) && BetweenHalves(steps)
    ensures Enabled(atomicApi, t, AddRevision)
    ensures Do(atomicApi, t, AddRevision).revs == t.revs + [Revision(s.policyGen, Waiting, 0, 0)]
    decreases |steps|
  {
    if steps != [] {
      assert steps[0] in steps && forall x :: x in steps[1..] ==> x in steps;
      ChangeIsQueued(atomicApi, Do(atomicApi, s, steps[0]), steps[1..], t);
    }
  }

  // ---- Requests that are not atomic.

  lemma ReachNext(s: State, step: Step)
    requires Reachable(false, s) && Enabled(false, s, step)
    ensures Reachable(false, Do(false, s, step))
  {
    var steps :| Leads(false, INIT, steps, s);
    LeadsThen(INIT, steps, s, step);
  }

  lemma {:induction false} LeadsThen(s: State, steps: seq<Step>, t: State, step: Step)
    requires Leads(false, s, steps, t) && Enabled(false, t, step)
    ensures Leads(false, s, steps + [step], Do(false, t, step))
    decreases |steps|
  {
    if steps == [] {
      assert [step][1..] == [];
      assert Leads(false, Do(false, t, step), [], Do(false, t, step));
    } else {
      LeadsThen(Do(false, s, steps[0]), steps[1..], t, step);
      assert (steps + [step])[1..] == steps[1..] + [step];
    }
  }

  /** The enforcer starts on the first unfinished revision. */
  lemma Begin(s: State, i: nat)
    requires Reachable(false, s) && s.enforcer.Idle? && i < |s.revs| && !s.revs[i].Finished()
    requires forall j :: 0 <= j < i ==> s.revs[j].Finished()
    ensures Reachable(false, s.(revs := s.revs[i := Revision(s.revs[i].policyGen, InProgress, 0, 0)],
                                enforcer := Applying(i), started := s.started + [i]))
  {
    assert FirstUnprocessed(s.revs) == i;
    ReachNext(s, Scan);
    var s1 := Do(false, s, Scan);
    ReachNext(s1, Reset);
    var s2 := Do(false, s1, Reset);
    ReachNext(s2, Start);
    assert Do(false, s2, Start)
        == s.(revs := s.revs[i := Revision(s.revs[i].policyGen, InProgress, 0, 0)], enforcer := Applying(i), started := s.started + [i]);
  }

  /** It completes the revision it has started. */
  lemma Complete(s: State, i: nat)
    requires Reachable(false, s) && s.enforcer == Applying(i) && i < |s.revs|
    ensures Reachable(false, s.(revs := s.revs[i := s.revs[i].(status := Completed)], enforcer := Idle))
  {
    ReachNext(s, Finish);
    var s1 := Do(false, s, Finish);
    ReachNext(s1, SaveLog);
    assert Do(false, s1, SaveLog) == s.(revs := s.revs[i := s.revs[i].(status := Completed)], enforcer := Idle);
  }

  /** The enforcer processes the first unfinished revision, without a failure. */
  lemma Process(s: State, i: nat)
    requires Reachable(false, s) && s.enforcer.Idle? && i < |s.revs| && !s.revs[i].Finished()
    requires forall j :: 0 <= j < i ==> s.revs[j].Finished()
    ensures Reachable(false, s.(revs := s.revs[i := Revision(s.revs[i].policyGen, Completed, 0, 0)], started := s.started + [i]))
  {
    var r := Revision(s.revs[i].policyGen, InProgress, 0, 0);
    Begin(s, i);
    var s1 := s.(revs := s.revs[i := r], enforcer := Applying(i), started := s.started + [i]);
    Complete(s1, i);
    assert s1.(revs := s1.revs[i := r.(status := Completed)], enforcer := Idle)
        == s.(revs := s.revs[i := Revision(s.revs[i].policyGen, Completed, 0, 0)], started := s.started + [i]);
  }

  /** The same, with one action that fails. */
  lemma ProcessWithFailure(s: State, i: nat)
    requires Reachable(false, s) && s.enforcer.Idle? && i < |s.revs| && !s.revs[i].Finished()
    requires forall j :: 0 <= j < i ==> s.revs[j].Finished()
    ensures Reachable(false, s.(revs := s.revs[i := Revision(s.revs[i].policyGen, Completed, 1, 0)], started := s.started + [i]))
  {
    var r := Revision(s.revs[i].policyGen, InProgress, 0, 0);
    Begin(s, i);
    var s1 := s.(revs := s.revs[i := r], enforcer := Applying(i), started := s.started + [i]);
    ReachNext(s1, CountAction(false));
    var s2 := s1.(revs := s1.revs[i := r.(failed := 1)]);
    assert Do(false, s1, CountAction(false)) == s2;
    Complete(s2, i);
    assert s2.(revs := s2.revs[i := s2.revs[i].(status := Completed)], enforcer := Idle)
        == s.(revs := s.revs[i := Revision(s.revs[i].policyGen, Completed, 1, 0)], started := s.started + [i]);
  }

  /** The enforcer retries revision i after it has found nothing unfinished. */
  lemma Retry(s: State, i: nat)
    requires Reachable(false, s) && s.enforcer.Idle? && (forall j :: 0 <= j < |s.revs| ==> s.revs[j].Finished())
    requires i < |s.revs| && LastForPolicy(s.revs, s.policyGen) == i && s.revs[i].NeedsRetry()
    ensures Reachable(false, s.(revs := s.revs[i := Revision(s.revs[i].policyGen, Waiting, 0, 0)], enforcer := WasReset(i)))
  {
    assert FirstUnprocessed(s.revs) == |s.revs|;
    ReachNext(s, Scan);
    var s1 := Do(false, s, Scan);
    ReachNext(s1, ReadPolicy);
    var s2 := Do(false, s1, ReadPolicy);
    ReachNext(s2, ReadLast);
    var s3 := Do(false, s2, ReadLast);
    ReachNext(s3, Reset);
    assert Do(false, s3, Reset)
        == s.(revs := s.revs[i := Revision(s.revs[i].policyGen, Waiting, 0, 0)], enforcer := WasReset(i));
  }

  /**
   When a request that enforces the state uses a policy generation read before a policy change, neither
   holds: policy generations are not monotone, and a finished revision may come after an unfinished one.
   */
  lemma StaleRequestBreaksOrder()
    ensures exists s :: Reachable(false, s) && !Monotone(s) && !FinishedFirst(s)
  {
    assert Leads(false, INIT, [], INIT);
    Process(INIT, 0);
    var s0 := State(1, false, [Revision(1, Completed, 0, 0)], Idle, [0]);
    assert INIT.(revs := INIT.revs[0 := Revision(1, Completed, 0, 0)], started := INIT.started + [0]) == s0;
    ReachNext(s0, SavePolicy);
    ReachNext(Do(false, s0, SavePolicy), AddRevision);
    var s1 := State(2, false, [Revision(1, Completed, 0, 0), NewRevision(2)], Idle, [0]);
    assert Do(false, Do(false, s0, SavePolicy), AddRevision) == s1;
    ReachNext(s1, AddEnforceRevision(1));
    var s2 := State(2, false, [Revision(1, Completed, 0, 0), NewRevision(2), NewRevision(1)], Idle, [0]);
    assert Do(false, s1, AddEnforceRevision(1)) == s2;
    RetryOutOfOrder(s2);
  }

  lemma RetryOutOfOrder(s2: State)
    requires s2 == State(2, false, [Revision(1, Completed, 0, 0), NewRevision(2), NewRevision(1)], Idle, [0]) && Reachable(false, s2)
    ensures exists s :: Reachable(false, s) && !Monotone(s) && !FinishedFirst(s)
  {
    ProcessWithFailure(s2, 1);
    var s3 := State(2, false, [Revision(1, Completed, 0, 0), Revision(2, Completed, 1, 0), NewRevision(1)], Idle, [0, 1]);
    assert s2.(revs := s2.revs[1 := Revision(2, Completed, 1, 0)], started := s2.started + [1]) == s3;
    Process(s3, 2);
    var s4 := State(2, false, [Revision(1, Completed, 0, 0), Revision(2, Completed, 1, 0), Revision(1, Completed, 0, 0)], Idle, [0, 1, 2]);
    assert s3.(revs := s3.revs[2 := Revision(1, Completed, 0, 0)], started := s3.started + [2]) == s4;
    Retry(s4, 1);
    var s5 := State(2, false, [Revision(1, Completed, 0, 0), Revision(2, Waiting, 0, 0), Revision(1, Completed, 0, 0)], WasReset(1), [0, 1, 2]);
    assert s4.(revs := s4.revs[1 := Revision(2, Waiting, 0, 0)], enforcer := WasReset(1)) == s5;
    assert s5.revs[1].policyGen > s5.revs[2].policyGen && s5.revs[2].Finished() && !s5.revs[1].Finished();
  }
}

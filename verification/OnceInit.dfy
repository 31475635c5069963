/**
 The double-checked initialiser: any number of threads call Do, each of them possibly while others are
 anywhere in the middle of it.
 */
module OnceInit {
  import opened Prelude

  /** What an initialiser does. */
  datatype Behaviour = Returns | Fails(message: string) | Panics(message: string)

  /** The stored error, and what Do returns: nil is None. */
  type Err = Option<string>

  function ErrorOf(b: Behaviour): Err {
    match b
    case Returns => None
    case Fails(m) => Some("error during init: " + m)
    case Panics(m) => Some("panic during init: " + m)
  }

  datatype Pc =
    | Begin                  // about to load done
    | FastRead               // done was 1: about to read err without the lock
    | Lock                   // waiting for the lock
    | Check                  // holds the lock, about to look at done again
    | Run                    // about to run its initialiser
    | StorePanic(m: string)  // recovering: about to store the panic as the error
    | StoreRaw(m: string)    // err is the raw error of the initialiser, about to be wrapped
    | SetDone(result: Err)   // result fixed, about to store done
    | Unlock(result: Err)    // about to release the lock
    | Returned(result: Err)

  type Thread = nat

  datatype State = State(
    done: bool,
    err: Err,
    holder: Option<Thread>,       // of the mutex
    pc: map<Thread, Pc>,
    inits: map<Thread, Behaviour>, // the initialiser that each thread has brought
    runs: seq<Thread>             // whose initialiser has been run
  )

  ghost predicate Init(s: State) {
    !s.done && s.err == None && s.holder == None && s.runs == [] && s.pc.Keys == s.inits.Keys && forall t :: t in s.pc ==> s.pc[t] == Begin
  }

  predicate Enabled(s: State, t: Thread) {
    t in s.pc && t in s.inits && !s.pc[t].Returned? && (s.pc[t].Lock? ==> s.holder == None)
  }

  /** One atomic step of thread t. */
  function Do(s: State, t: Thread): State
    requires Enabled(s, t)
  {
    match s.pc[t]
    case Begin => s.(pc := s.pc[t := if s.done then FastRead else Lock])
    case FastRead => s.(pc := s.pc[t := Returned(s.err)])
    case Lock => s.(pc := s.pc[t := Check], holder := Some(t))
    case Check => s.(pc := s.pc[t := if s.done then Unlock(s.err) else Run])
    case Run =>
      (match s.inits[t]
       case Returns => s.(runs := s.runs + [t], err := None, pc := s.pc[t := SetDone(None)])
       case Fails(m) => s.(runs := s.runs + [t], err := Some(m), pc := s.pc[t := StoreRaw(m)])
       case Panics(m) => s.(runs := s.runs + [t], pc := s.pc[t := StorePanic(m)]))
    case StoreRaw(m) =>
      var e := Some("error during init: " + m);
      s.(err := e, pc := s.pc[t := SetDone(e)])
    case StorePanic(m) =>
      var e := Some("panic during init: " + m);
      s.(err := e, pc := s.pc[t := SetDone(e)])
    case SetDone(r) => s.(done := true, pc := s.pc[t := Unlock(r)])
    case Unlock(r) => s.(holder := None, pc := s.pc[t := Returned(r)])
    case Returned(_) => s
  }

  ghost predicate Leads(s: State, schedule: seq<Thread>, t: State)
    decreases |schedule|
  {
    if schedule == [] then s == t
    else Enabled(s, schedule[0]) && Leads(Do(s, schedule[0]), schedule[1..], t)
  }

  ghost predicate Reachable(s: State) {
    exists s0, schedule :: Init(s0) && Leads(s0, schedule, s)
  }

  /** The thread is between taking and releasing the lock. */
  predicate Inside(p: Pc) {
    p.Check? || p.Run? || p.StorePanic? || p.StoreRaw? || p.SetDone? || p.Unlock?
  }

  /** The final error: that of the initialiser that was run. */
  function Final(s: State): Err
    requires s.runs != [] && s.runs[0] in s.inits
  {
    ErrorOf(s.inits[s.runs[0]])
  }

  ghost predicate ThreadFits(s: State, t: Thread)
    requires t in s.pc && t in s.inits
  {
    match s.pc[t]
    case Begin => true
    case FastRead => s.done
    case Lock => true
    case Check => true
    case Run => !s.done && s.runs == []
    case StorePanic(m) => !s.done && s.runs == [t] && s.inits[t] == Panics(m)
    case StoreRaw(m) => !s.done && s.runs == [t] && s.inits[t] == Fails(m)
    case SetDone(r) => !s.done && s.runs == [t] && r == ErrorOf(s.inits[t]) && s.err == r
    case Unlock(r) => s.done && r == s.err
    case Returned(r) => s.done && r == s.err
  }

  /** Someone is about to say that the run is done. */
  ghost predicate Finishing(s: State) {
    exists t :: t in s.pc && (s.pc[t].StorePanic? || s.pc[t].StoreRaw? || s.pc[t].SetDone?)
  }

  ghost predicate Inv(s: State) {
    && s.pc.Keys == s.inits.Keys
    && (forall t :: t in s.pc ==> (Inside(s.pc[t]) <==> s.holder == Some(t)))
    && (s.holder.Some? ==> s.holder.value in s.pc)
    && (forall t :: t in s.pc ==> ThreadFits(s, t))
    && |s.runs| <= 1 && (forall t :: t in s.runs ==> t in s.inits)
    && (s.done ==> s.runs != [] && s.err == Final(s))
    && (s.runs != [] ==> s.done || Finishing(s))
  }

  lemma StepInv(s: State, t: Thread)
    requires Inv(s) && Enabled(s, t)
    ensures Inv(Do(s, t))
  {
    if Inside(s.pc[t]) {
      InsideStepInv(s, t);
    } else {
      OutsideStepInv(s, t);
    }
  }

  lemma OutsideStepInv(s: State, t: Thread)
    requires Inv(s) && Enabled(s, t) && !Inside(s.pc[t])
    ensures Inv(Do(s, t))
  {
    var s' := Do(s, t);
    forall x | x in s'.pc ensures ThreadFits(s', x) {
      assert ThreadFits(s, x);
    }
    if s.runs != [] && !s.done {
      var x :| x in s.pc && (s.pc[x].StorePanic? || s.pc[x].StoreRaw? || s.pc[x].SetDone?);
      assert s'.pc[x] == s.pc[x];
    }
  }

  lemma InsideStepInv(s: State, t: Thread)
    requires Inv(s) && Enabled(s, t) && Inside(s.pc[t])
    ensures Inv(Do(s, t))
  {
    var s' := Do(s, t);
    assert ThreadFits(s, t);
    forall x | x in s'.pc ensures ThreadFits(s', x) {
      assert ThreadFits(s, x);
    }
    if s'.pc[t].StorePanic? || s'.pc[t].StoreRaw? || s'.pc[t].SetDone? {
      assert Finishing(s');
    }
  }

  lemma {:induction false} LeadsInv(s: State, schedule: seq<Thread>, t: State)
    requires Inv(s) && Leads(s, schedule, t)
    ensures Inv(t)
    decreases |schedule|
  {
    if schedule != [] {
      StepInv(s, schedule[0]);
      LeadsInv(Do(s, schedule[0]), schedule[1..], t);
    }
  }

  /**
   Once-initialisation: in every interleaving at most one initialiser is run; the fast path reads the error
   only when it is final; every call of Do that has returned gives the error of that one run, whether it
   returned, failed or panicked: nil exactly after a return, and otherwise an error that tells which it was.
   */
  lemma OnceOnly(s: State)
    requires Reachable(s)
    ensures |s.runs| <= 1
    ensures forall t :: t in s.pc && s.pc[t].FastRead? ==> s.runs != [] && s.runs[0] in s.inits && s.err == Final(s)
    ensures forall t :: t in s.pc && s.pc[t].Returned? ==> s.runs != [] && s.runs[0] in s.inits && s.pc[t].result == Final(s)
    ensures forall t :: t in s.pc && s.pc[t].Returned? ==>
      match s.inits[s.runs[0]]
      case Returns => s.pc[t].result == None
      case Fails(m) => s.pc[t].result == Some("error during init: " + m)
      case Panics(m) => s.pc[t].result == Some("panic during init: " + m)
    ensures forall t, u :: t in s.pc && u in s.pc && s.pc[t].Returned? && s.pc[u].Returned? ==> s.pc[t].result == s.pc[u].result
  {
    var s0, schedule :| Init(s0) && Leads(s0, schedule, s);
    LeadsInv(s0, schedule, s);
    forall t | t in s.pc && (s.pc[t].FastRead? || s.pc[t].Returned?)
      ensures s.done && (s.pc[t].Returned? ==> s.pc[t].result == s.err)
    {
      assert ThreadFits(s, t);
    }
  }

  /** The final error stays: no step changes it once done is set. */
  lemma FinalForGood(s: State, t: Thread)
    requires Inv(s) && Enabled(s, t) && s.done
    ensures Do(s, t).done && Do(s, t).err == s.err && Do(s, t).runs == s.runs
  {
  }

  /** No deadlock: unless all threads have returned, one of them can take a step. */
  lemma SomeoneCanGoOn(s: State, t: Thread) returns (u: Thread)
    requires Reachable(s) && t in s.pc && !s.pc[t].Returned?
    ensures Enabled(s, u)
  {
    var s0, schedule :| Init(s0) && Leads(s0, schedule, s);
    LeadsInv(s0, schedule, s);
    u := if s.pc[t].Lock? && s.holder.Some? then s.holder.value else t;
  }
}

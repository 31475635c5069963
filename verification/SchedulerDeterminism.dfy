/**
 What a finished run has done, as a function of the plan, the initial world and the action function.
 */
module SchedulerDeterminism {
  import opened Prelude
  import opened Scheduler
  import opened SchedulerSafety
  import opened SchedulerLiveness

  /** Entry and error of a node after its first i actions, if nothing before it has failed. */
  function Alone<V>(c: Config<V>, k: Key, i: nat, v: Option<V>): (Option<V>, bool) {
    if i == 0 then (v, false)
    else
      var (v', err) := Alone(c, k, i - 1, v);
      if err then (v', true)
      else
        var (v'', ok) := c.exec(ActionId(k, i - 1), v');
        (v'', !ok)
  }

  /** One of the actions of k fails when k runs its list. */
  predicate OwnFails<V>(c: Config<V>, w0: map<Key, V>, k: Key) {
    k in c.graph.sizes && Alone(c, k, c.graph.sizes[k], Lookup(w0, k)).1
  }

  /** A chain of Before edges from a node down to another. */
  ghost predicate Path(g: Graph, waiter: Key, path: seq<nat>, needed: Key)
    decreases |path|
  {
    && path != [] && path[0] < |g.edges| && g.edges[path[0]].waiter == waiter
    && if |path| == 1 then g.edges[path[0]].needed == needed
       else Path(g, g.edges[path[0]].needed, path[1..], needed)
  }

  /** Some node transitively in the Before of k fails. */
  ghost predicate Blocked<V>(c: Config<V>, w0: map<Key, V>, k: Key) {
    exists path, b :: Path(c.graph, k, path, b) && OwnFails(c, w0, b)
  }

  ghost predicate Fails<V>(c: Config<V>, w0: map<Key, V>, k: Key) {
    OwnFails(c, w0, k) || Blocked(c, w0, k)
  }

  lemma BlockedByEdge<V>(c: Config<V>, w0: map<Key, V>, e: nat)
    requires e < |c.graph.edges| && Fails(c, w0, c.graph.edges[e].needed)
    ensures Blocked(c, w0, c.graph.edges[e].waiter)
  {
    var Edge(w, n) := c.graph.edges[e];
    if OwnFails(c, w0, n) {
      assert Path(c.graph, w, [e], n);
    } else {
      var path, b :| Path(c.graph, n, path, b) && OwnFails(c, w0, b);
      assert ([e] + path)[1..] == path;
      assert Path(c.graph, w, [e] + path, b);
    }
  }

  lemma EdgeBlocking<V>(c: Config<V>, w0: map<Key, V>, k: Key) returns (e: nat)
    requires Blocked(c, w0, k)
    ensures e in c.graph.Before(k) && Fails(c, w0, c.graph.edges[e].needed)
  {
    var path, b :| Path(c.graph, k, path, b) && OwnFails(c, w0, b);
    e := path[0];
    if |path| > 1 {
      assert Path(c.graph, c.graph.edges[e].needed, path[1..], b);
    }
  }

  ghost function OutcomeOf<V>(c: Config<V>, w0: map<Key, V>, a: ActionId): Outcome {
    var (v, err) := Alone(c, a.node, a.index, Lookup(w0, a.node));
    if Blocked(c, w0, a.node) || err then Skipped
    else if c.exec(a, v).1 then Succeeded
    else Failed
  }

  /** The entry of a node after its first i actions have been run or skipped. */
  ghost function EntryAfter<V>(c: Config<V>, w0: map<Key, V>, k: Key, i: nat): Option<V> {
    if Blocked(c, w0, k) then Lookup(w0, k) else Alone(c, k, i, Lookup(w0, k)).0
  }

  ghost function FinalEntry<V>(c: Config<V>, w0: map<Key, V>, k: Key): Option<V> {
    if k in c.graph.sizes then EntryAfter(c, w0, k, c.graph.sizes[k]) else Lookup(w0, k)
  }

  /** Failure marks are in time: they are part of the decrement, or there is never anyone to mark. */
  ghost predicate MarksInTime<V>(c: Config<V>, w0: map<Key, V>) {
    c.atomicMark || forall e :: 0 <= e < |c.graph.edges| ==> !OwnFails(c, w0, c.graph.edges[e].needed)
  }

  lemma MarksInTimeAnyFailure<V>(c: Config<V>, w0: map<Key, V>, e: nat)
    requires MarksInTime(c, w0) && !c.atomicMark && e < |c.graph.edges|
    ensures !Fails(c, w0, c.graph.edges[e].needed)
  {
    if Blocked(c, w0, c.graph.edges[e].needed) {
      NeverBlocked(c, w0, c.graph.edges[e].needed);
    }
  }

  lemma NeverBlocked<V>(c: Config<V>, w0: map<Key, V>, k: Key)
    requires MarksInTime(c, w0) && !c.atomicMark
    ensures !Blocked(c, w0, k)
  {
    forall path, b | Path(c.graph, k, path, b) ensures !OwnFails(c, w0, b) {
      PathEnds(c.graph, k, path, b);
    }
  }

  lemma {:induction false} PathEnds(g: Graph, k: Key, path: seq<nat>, b: Key)
    requires Path(g, k, path, b)
    ensures exists e :: 0 <= e < |g.edges| && g.edges[e].needed == b
    decreases |path|
  {
    if |path| > 1 {
      PathEnds(g, g.edges[path[0]].needed, path[1..], b);
    }
  }

  /** The state of one node: its entry and its error flag are the ones foreseen. */
  ghost predicate NodeAsForeseen<V>(c: Config<V>, w0: map<Key, V>, p: Pc, v: Option<V>, k: Key)
    requires k in c.graph.sizes
  {
    match p
    case Running(i, err) =>
      && i <= c.graph.sizes[k]
      && err == (Blocked(c, w0, k) || Alone(c, k, i, Lookup(w0, k)).1)
      && v == EntryAfter(c, w0, k, i)
    case MarkSelf => Fails(c, w0, k) && v == FinalEntry(c, w0, k)
    case Notify(rest, err) =>
      && err == Fails(c, w0, k) && v == FinalEntry(c, w0, k)
      && (err && !c.atomicMark ==> rest == [])
    case MarkNext(_) => false
    case Finished => v == FinalEntry(c, w0, k)
    case _ => v == Lookup(w0, k)
  }

  /** The failed nodes that have already reported to k. */
  ghost function FailuresReported<V>(c: Config<V>, w0: map<Key, V>, s: State<V>, k: Key): set<nat> {
    set e | e in c.graph.Before(k) && e !in Pending(c, s, k) && Fails(c, w0, c.graph.edges[e].needed)
  }

  predicate NotYetRead(p: Pc) {
    p == Idle || p == Queued || p == Started
  }

  ghost predicate Foreseen<V>(c: Config<V>, w0: map<Key, V>, s: State<V>) {
    && (forall k :: k in s.pc && k in c.graph.sizes ==> NodeAsForeseen(c, w0, s.pc[k], Lookup(s.world, k), k))
    && (forall k :: k !in s.pc ==> Lookup(s.world, k) == Lookup(w0, k))
    && (forall k :: k in s.pc && NotYetRead(s.pc[k]) ==> (k in s.wasError <==> FailuresReported(c, w0, s, k) != {}))
    && (forall a :: a in s.outcomes ==> s.outcomes[a] == OutcomeOf(c, w0, a))
  }

  lemma InitForeseen<V>(c: Config<V>, s: State<V>)
    requires Init(c, s)
    ensures Foreseen(c, s.world, s)
  {
  }

  /** What does not touch entries, outcomes, marks or pending edges of other nodes keeps their part. */
  lemma OthersForeseen<V>(c: Config<V>, w0: map<Key, V>, s: State<V>, t: State<V>, k: Key)
    requires Foreseen(c, w0, s) && k in s.pc && k in t.pc && t.pc == s.pc[k := t.pc[k]] && k in c.graph.sizes
    requires forall x :: x != k ==> Lookup(t.world, x) == Lookup(s.world, x)
    requires NodeAsForeseen(c, w0, t.pc[k], Lookup(t.world, k), k)
    requires forall w :: Pending(c, t, w) == Pending(c, s, w)
    requires t.wasError == s.wasError || (t.wasError == s.wasError + {k} && !NotYetRead(t.pc[k]))
    requires NotYetRead(t.pc[k]) ==> NotYetRead(s.pc[k])
    requires forall a :: a in t.outcomes ==> t.outcomes[a] == OutcomeOf(c, w0, a)
    ensures Foreseen(c, w0, t)
  {
  }

  /** A node reads an error exactly if some node below it fails. */
  lemma ReadForeseen<V>(c: Config<V>, w0: map<Key, V>, s: State<V>, k: Key)
    requires Inv(c, s) && Foreseen(c, w0, s) && k in s.pc && s.pc[k] == Started
    ensures k in s.wasError <==> Blocked(c, w0, k)
  {
    NothingPending(c, s, k);
    if Blocked(c, w0, k) {
      var e := EdgeBlocking(c, w0, k);
      assert e in FailuresReported(c, w0, s, k);
    }
    if k in s.wasError {
      var e :| e in FailuresReported(c, w0, s, k);
      BlockedByEdge(c, w0, e);
    }
  }

  lemma StepForeseen<V>(c: Config<V>, w0: map<Key, V>, s: State<V>, m: Move)
    requires Inv(c, s) && Foreseen(c, w0, s) && MarksInTime(c, w0) && Enabled(c, s, m) && IsStep(m)
    ensures Foreseen(c, w0, Do(c, s, m))
  {
    var k := m.k;
    StepEffect(c, s, m);
    NextPcFits(c, s, m);
    var t := Do(c, s, m);
    PendingKept(c, s, t, k);
    NextPcForeseen(c, w0, s, m);
    StepMarks(c, s, m);
    OthersForeseen(c, w0, s, t, k);
  }

  lemma StepMarks<V>(c: Config<V>, s: State<V>, m: Move)
    requires Enabled(c, s, m) && IsStep(m) && !m.MarkWaiter?
    ensures Do(c, s, m).wasError == s.wasError || (m.StoreOwnError? && Do(c, s, m).wasError == s.wasError + {m.k})
  {
  }

  lemma NextPcForeseen<V>(c: Config<V>, w0: map<Key, V>, s: State<V>, m: Move)
    requires Inv(c, s) && Foreseen(c, w0, s) && MarksInTime(c, w0) && Enabled(c, s, m) && IsStep(m)
    ensures !m.MarkWaiter?
    ensures NodeAsForeseen(c, w0, NextPc(c, s, m), Lookup(s.world, m.k), m.k)
  {
    if m.ReadError? {
      ReadForeseen(c, w0, s, m.k);
    }
    if !c.atomicMark && Fails(c, w0, m.k) {
      NobodyWaits(c, w0, m.k);
    }
    NextPcAsForeseen(c, w0, s, m);
  }

  lemma NextPcAsForeseen<V>(c: Config<V>, w0: map<Key, V>, s: State<V>, m: Move)
    requires Enabled(c, s, m) && IsStep(m) && m.k in c.graph.sizes
    requires NodeAsForeseen(c, w0, s.pc[m.k], Lookup(s.world, m.k), m.k)
    requires m.ReadError? ==> (m.k in s.wasError <==> Blocked(c, w0, m.k))
    requires !c.atomicMark && Fails(c, w0, m.k) ==> c.graph.BeforeRev(m.k) == []
    ensures !m.MarkWaiter?
    ensures NodeAsForeseen(c, w0, NextPc(c, s, m), Lookup(s.world, m.k), m.k)
  {
  }

  lemma NobodyWaits<V>(c: Config<V>, w0: map<Key, V>, k: Key)
    requires MarksInTime(c, w0) && !c.atomicMark && Fails(c, w0, k)
    ensures c.graph.BeforeRev(k) == []
  {
    if c.graph.BeforeRev(k) != [] {
      var e := c.graph.BeforeRev(k)[0];
      assert e in c.graph.BeforeRev(k);
      MarksInTimeAnyFailure(c, w0, e);
    }
  }

  lemma ActionForeseen<V>(c: Config<V>, w0: map<Key, V>, s: State<V>, k: Key)
    requires Inv(c, s) && Foreseen(c, w0, s) && Enabled(c, s, RunAction(k))
    ensures Foreseen(c, w0, Do(c, s, RunAction(k)))
  {
    var o := ActionEffect(c, s, k);
    var t := DoAction(c, s, k);
    ActionMoves(c, s, t, k, o);
    PendingKept(c, s, t, k);
    ActionEntry(c, w0, s, k);
    OthersForeseen(c, w0, s, t, k);
  }

  lemma ActionEntry<V>(c: Config<V>, w0: map<Key, V>, s: State<V>, k: Key)
    requires Enabled(c, s, RunAction(k)) && NodeAsForeseen(c, w0, s.pc[k], Lookup(s.world, k), k)
    ensures var t, a := DoAction(c, s, k), ActionId(k, s.pc[k].next);
      && NodeAsForeseen(c, w0, t.pc[k], Lookup(t.world, k), k)
      && t.outcomes == s.outcomes[a := OutcomeOf(c, w0, a)]
      && (forall x :: x != k ==> Lookup(t.world, x) == Lookup(s.world, x))
      && t.wasError == s.wasError
  {
    ActionWrites(c, s, k);
    EntryForeseen(c, w0, k, s.pc[k].next, s.pc[k].err, Lookup(s.world, k));
  }

  lemma ActionWrites<V>(c: Config<V>, s: State<V>, k: Key)
    requires Enabled(c, s, RunAction(k))
    ensures var t, a := DoAction(c, s, k), ActionId(k, s.pc[k].next);
      var (v, ok) := c.exec(a, Lookup(s.world, k));
      && t.wasError == s.wasError
      && if s.pc[k].err then
           t.pc[k] == Running(a.index + 1, true) && t.world == s.world && t.outcomes == s.outcomes[a := Skipped]
         else
           t.pc[k] == Running(a.index + 1, !ok) && t.world == Store(s.world, k, v)
           && t.outcomes == s.outcomes[a := if ok then Succeeded else Failed]
  {
  }

  lemma EntryForeseen<V>(c: Config<V>, w0: map<Key, V>, k: Key, i: nat, err: bool, v: Option<V>)
    requires k in c.graph.sizes && i < c.graph.sizes[k] && NodeAsForeseen(c, w0, Running(i, err), v, k)
    ensures var a := ActionId(k, i); var (v', ok) := c.exec(a, v);
      if err then NodeAsForeseen(c, w0, Running(i + 1, true), v, k) && OutcomeOf(c, w0, a) == Skipped
      else NodeAsForeseen(c, w0, Running(i + 1, !ok), v', k)
           && OutcomeOf(c, w0, a) == if ok then Succeeded else Failed
  {
  }

  lemma AloneNext<V>(c: Config<V>, k: Key, i: nat, v: Option<V>)
    ensures var (v', err) := Alone(c, k, i, v);
      Alone(c, k, i + 1, v) ==
        if err then (v', true) else var (v'', ok) := c.exec(ActionId(k, i), v'); (v'', !ok)
  {
  }

  lemma DispatchForeseen<V>(c: Config<V>, w0: map<Key, V>, s: State<V>)
    requires Inv(c, s) && Foreseen(c, w0, s) && Enabled(c, s, Dispatch)
    ensures Foreseen(c, w0, Do(c, s, Dispatch))
  {
    var t, k := Do(c, s, Dispatch), s.queue[0];
    assert k in s.queue;
    PendingKept(c, s, t, k);
    OthersForeseen(c, w0, s, t, k);
  }

  lemma DecrementForeseen<V>(c: Config<V>, w0: map<Key, V>, s: State<V>, k: Key)
    requires Inv(c, s) && Foreseen(c, w0, s) && Enabled(c, s, Decrement(k))
    ensures Foreseen(c, w0, Do(c, s, Decrement(k)))
  {
    DecrementSafe(c, s, k);
    var t, e := DoDecrement(c, s, k), s.pc[k].rest[0];
    var w := c.graph.edges[e].waiter;
    assert e in s.pc[k].rest;
    DecrementEffect(c, s, k, w);
    DecrementMark(c, w0, s, k);
    forall x ensures FailuresReported(c, w0, t, x) ==
      FailuresReported(c, w0, s, x) + if x == w && Fails(c, w0, k) then {e} else {}
    {
      PendingDecremented(c, s, t, k, w, x);
      FailureReported(c, w0, s, t, k, e, x);
    }
    DecrementNodes(c, w0, s, t, k, w, e);
  }

  lemma FailureReported<V>(c: Config<V>, w0: map<Key, V>, s: State<V>, t: State<V>, k: Key, e: nat, x: Key)
    requires e < |c.graph.edges| && c.graph.edges[e].needed == k && e in Pending(c, s, c.graph.edges[e].waiter)
    requires Pending(c, t, x) == if x == c.graph.edges[e].waiter then Pending(c, s, x) - {e} else Pending(c, s, x)
    ensures FailuresReported(c, w0, t, x) ==
      FailuresReported(c, w0, s, x) + if x == c.graph.edges[e].waiter && Fails(c, w0, k) then {e} else {}
  {
  }

  lemma DecrementMark<V>(c: Config<V>, w0: map<Key, V>, s: State<V>, k: Key)
    requires Enabled(c, s, Decrement(k)) && k in c.graph.sizes && NodeAsForeseen(c, w0, s.pc[k], Lookup(s.world, k), k)
    requires c.graph.edges[s.pc[k].rest[0]].waiter != k
    ensures var t, w := DoDecrement(c, s, k), c.graph.edges[s.pc[k].rest[0]].waiter;
      && t.world == s.world && t.outcomes == s.outcomes
      && t.wasError == s.wasError + (if Fails(c, w0, k) then {w} else {})
      && t.pc[k] == Notify(s.pc[k].rest[1..], s.pc[k].err)
      && (s.pc[k].err ==> c.atomicMark)
  {
  }

  lemma DecrementNodes<V>(c: Config<V>, w0: map<Key, V>, s: State<V>, t: State<V>, k: Key, w: Key, e: nat)
    requires Foreseen(c, w0, s) && Decremented(s, t, k, w)
    requires t.pc[k] == Notify(s.pc[k].rest[1..], s.pc[k].err) && (s.pc[k].err ==> c.atomicMark)
    requires t.world == s.world && t.outcomes == s.outcomes
    requires t.wasError == s.wasError + (if Fails(c, w0, k) then {w} else {})
    requires forall x :: FailuresReported(c, w0, t, x) ==
                         FailuresReported(c, w0, s, x) + if x == w && Fails(c, w0, k) then {e} else {}
    ensures Foreseen(c, w0, t)
  {
    forall x | x in t.pc && x in c.graph.sizes ensures NodeAsForeseen(c, w0, t.pc[x], Lookup(t.world, x), x) {
      assert NodeAsForeseen(c, w0, s.pc[x], Lookup(s.world, x), x);
      DecrementedNode(c, w0, s, t, k, w, x);
    }
    forall x | x in t.pc && NotYetRead(t.pc[x]) ensures x in t.wasError <==> FailuresReported(c, w0, t, x) != {} {
      assert x in s.pc && NotYetRead(s.pc[x]);
    }
  }

  lemma DecrementedNode<V>(c: Config<V>, w0: map<Key, V>, s: State<V>, t: State<V>, k: Key, w: Key, x: Key)
    requires Decremented(s, t, k, w) && x in t.pc && x in s.pc && x in c.graph.sizes
    requires t.pc[k] == Notify(s.pc[k].rest[1..], s.pc[k].err) && (s.pc[k].err ==> c.atomicMark) && t.world == s.world
    requires NodeAsForeseen(c, w0, s.pc[x], Lookup(s.world, x), x)
    ensures NodeAsForeseen(c, w0, t.pc[x], Lookup(t.world, x), x)
  {
  }

  lemma MoveForeseen<V>(c: Config<V>, w0: map<Key, V>, s: State<V>, m: Move)
    requires Inv(c, s) && Foreseen(c, w0, s) && MarksInTime(c, w0) && Enabled(c, s, m)
    ensures Foreseen(c, w0, Do(c, s, m))
  {
    if m.Dispatch? {
      DispatchForeseen(c, w0, s);
    } else if m.RunAction? {
      ActionForeseen(c, w0, s, m.k);
    } else if m.Decrement? {
      DecrementForeseen(c, w0, s, m.k);
    } else if IsStep(m) {
      StepForeseen(c, w0, s, m);
    } else {
      CloseForeseen(c, w0, s, m);
    }
  }

  lemma CloseForeseen<V>(c: Config<V>, w0: map<Key, V>, s: State<V>, m: Move)
    requires Foreseen(c, w0, s) && Enabled(c, s, m) && (m.Close? || m.Return?)
    ensures Foreseen(c, w0, Do(c, s, m))
  {
  }

  lemma {:induction false} LeadsForeseen<V(!new)>(c: Config<V>, w0: map<Key, V>, s: State<V>, moves: seq<Move>, t: State<V>)
    requires Inv(c, s) && Foreseen(c, w0, s) && MarksInTime(c, w0) && Leads(c, s, moves, t)
    ensures Foreseen(c, w0, t)
    decreases |moves|
  {
    if moves != [] {
      MoveForeseen(c, w0, s, moves[0]);
      StepInv(c, s, moves[0]);
      LeadsForeseen(c, w0, Do(c, s, moves[0]), moves[1..], t);
    }
  }

  /** What a finished run leaves behind, without reference to the schedule. */
  ghost predicate Foretold<V>(c: Config<V>, w0: map<Key, V>, s: State<V>) {
    && s.outcomes.Keys == c.graph.AllActions()
    && (forall a :: a in s.outcomes ==> s.outcomes[a] == OutcomeOf(c, w0, a))
    && (forall k :: Lookup(s.world, k) == FinalEntry(c, w0, k))
    && s.success == |ActionsWith(s.outcomes, Succeeded)|
    && s.failed == |ActionsWith(s.outcomes, Failed)|
    && s.skipped == |ActionsWith(s.outcomes, Skipped)|
  }

  lemma ReturnedAsForetold<V(!new)>(c: Config<V>, s0: State<V>, moves: seq<Move>, s: State<V>)
    requires Init(c, s0) && Leads(c, s0, moves, s) && s.returned && MarksInTime(c, s0.world)
    ensures Foretold(c, s0.world, s)
  {
    InitInv(c, s0);
    LeadsInv(c, s0, moves, s);
    InitForeseen(c, s0);
    LeadsForeseen(c, s0.world, s0, moves, s);
    AllActionsDone(c, s);
    ForeseenAtEnd(c, s0.world, s);
  }

  lemma ForeseenAtEnd<V>(c: Config<V>, w0: map<Key, V>, s: State<V>)
    requires Foreseen(c, w0, s) && s.pc.Keys == c.graph.sizes.Keys && forall k :: k in s.pc ==> s.pc[k] == Finished
    ensures forall k :: Lookup(s.world, k) == FinalEntry(c, w0, k)
  {
  }

  /**
   Scheduler determinism: with marks in time, any two schedules from the same world that return give
   every action the same outcome and leave the same world and the same counters.
   */
  lemma SchedulesAgree<V(!new)>(c: Config<V>, s0: State<V>, moves: seq<Move>, s: State<V>,
                                s0': State<V>, moves': seq<Move>, s': State<V>)
    requires Init(c, s0) && Leads(c, s0, moves, s) && s.returned
    requires Init(c, s0') && Leads(c, s0', moves', s') && s'.returned
    requires s0.world == s0'.world && MarksInTime(c, s0.world)
    ensures s.outcomes == s'.outcomes && s.world == s'.world
    ensures s.success == s'.success && s.failed == s'.failed && s.skipped == s'.skipped
  {
    ReturnedAsForetold(c, s0, moves, s);
    ReturnedAsForetold(c, s0', moves', s');
    SameForetold(c, s0.world, s, s');
  }

  lemma SameForetold<V(!new)>(c: Config<V>, w0: map<Key, V>, s: State<V>, s': State<V>)
    requires Foretold(c, w0, s) && Foretold(c, w0, s')
    ensures s.outcomes == s'.outcomes && s.world == s'.world
    ensures s.success == s'.success && s.failed == s'.failed && s.skipped == s'.skipped
  {
    forall k ensures k in s.world <==> k in s'.world
      ensures k in s.world ==> s.world[k] == s'.world[k]
    {
      assert Lookup(s.world, k) == Lookup(s'.world, k);
    }
  }

  /** In a finished run, the action that failed in node b. */
  ghost predicate HasFailed<V>(s: State<V>, b: Key) {
    exists i: nat :: ActionId(b, i) in s.outcomes && s.outcomes[ActionId(b, i)] == Failed
  }

  /** In a finished run, an action has failed in some node transitively in the Before of k. */
  ghost predicate FailureBelow<V>(g: Graph, s: State<V>, k: Key) {
    exists path, b :: Path(g, k, path, b) && HasFailed(s, b)
  }

  /** A failing list of actions has a first action that fails. */
  lemma {:induction false} FirstFailure<V>(c: Config<V>, k: Key, n: nat, v: Option<V>) returns (i: nat)
    requires Alone(c, k, n, v).1
    ensures i < n && !Alone(c, k, i, v).1 && !c.exec(ActionId(k, i), Alone(c, k, i, v).0).1
  {
    AloneNext(c, k, n - 1, v);
    if Alone(c, k, n - 1, v).1 {
      i := FirstFailure(c, k, n - 1, v);
    } else {
      i := n - 1;
    }
  }

  lemma {:induction false} ErrorStays<V>(c: Config<V>, k: Key, i: nat, n: nat, v: Option<V>)
    requires i <= n && Alone(c, k, i, v).1
    ensures Alone(c, k, n, v).1
    decreases n
  {
    if i < n {
      ErrorStays(c, k, i, n - 1, v);
      AloneNext(c, k, n - 1, v);
    }
  }

  lemma FailedIffOwn<V>(c: Config<V>, w0: map<Key, V>, s: State<V>, b: Key)
    requires Foretold(c, w0, s)
    ensures HasFailed(s, b) <==> OwnFails(c, w0, b) && !Blocked(c, w0, b)
  {
    if HasFailed(s, b) {
      FailedIsOwn(c, w0, s, b);
    }
    if OwnFails(c, w0, b) && !Blocked(c, w0, b) {
      var i := FirstFailure(c, b, c.graph.sizes[b], Lookup(w0, b));
      assert ActionId(b, i) in s.outcomes;
      assert s.outcomes[ActionId(b, i)] == Failed;
    }
  }

  lemma FailedIsOwn<V>(c: Config<V>, w0: map<Key, V>, s: State<V>, b: Key)
    requires Foretold(c, w0, s) && HasFailed(s, b)
    ensures OwnFails(c, w0, b) && !Blocked(c, w0, b)
  {
    var i: nat :| ActionId(b, i) in s.outcomes && s.outcomes[ActionId(b, i)] == Failed;
    AloneNext(c, b, i, Lookup(w0, b));
    ErrorStays(c, b, i + 1, c.graph.sizes[b], Lookup(w0, b));
  }

  /** Below every blocked node there is one that fails by itself without being blocked. */
  lemma {:induction false} DeepestFailure<V>(c: Config<V>, w0: map<Key, V>, rank: map<Key, nat>, k: Key)
    returns (path: seq<nat>, b: Key)
    requires c.graph.Valid() && Ranked(c.graph, rank) && k in rank && Blocked(c, w0, k)
    ensures Path(c.graph, k, path, b) && OwnFails(c, w0, b) && !Blocked(c, w0, b)
    decreases rank[k]
  {
    var e := EdgeBlocking(c, w0, k);
    var n := c.graph.edges[e].needed;
    if Blocked(c, w0, n) {
      path, b := DeepestFailure(c, w0, rank, n);
      assert ([e] + path)[1..] == path;
      path := [e] + path;
    } else {
      path, b := [e], n;
    }
  }

  /**
   Failure propagation: in a finished run with marks in time, the actions of a node are left out from
   the start exactly if one of the nodes transitively in its Before had an action that failed.
   */
  lemma RunsIffNothingBelowFailed<V(!new)>(c: Config<V>, s0: State<V>, moves: seq<Move>, s: State<V>, k: Key)
    requires Init(c, s0) && Leads(c, s0, moves, s) && s.returned && MarksInTime(c, s0.world)
    requires ActionId(k, 0) in s.outcomes
    ensures s.outcomes[ActionId(k, 0)] == Skipped <==> FailureBelow(c.graph, s, k)
  {
    var w0 := s0.world;
    ReturnedAsForetold(c, s0, moves, s);
    ReturnsOnlyIfAcyclic(c, s0, moves, s);
    var rank :| Ranked(c.graph, rank);
    assert k in c.graph.sizes;
    BlockedIffFailureBelow(c, w0, s, rank, k);
    assert s.outcomes[ActionId(k, 0)] == OutcomeOf(c, w0, ActionId(k, 0));
  }

  lemma BlockedIffFailureBelow<V>(c: Config<V>, w0: map<Key, V>, s: State<V>, rank: map<Key, nat>, k: Key)
    requires Foretold(c, w0, s) && c.graph.Valid() && Ranked(c.graph, rank) && k in rank
    ensures Blocked(c, w0, k) <==> FailureBelow(c.graph, s, k)
  {
    if Blocked(c, w0, k) {
      BlockedHasFailureBelow(c, w0, s, rank, k);
    }
    if FailureBelow(c.graph, s, k) {
      FailureBelowBlocks(c, w0, s, k);
    }
  }

  lemma BlockedHasFailureBelow<V>(c: Config<V>, w0: map<Key, V>, s: State<V>, rank: map<Key, nat>, k: Key)
    requires Foretold(c, w0, s) && c.graph.Valid() && Ranked(c.graph, rank) && k in rank && Blocked(c, w0, k)
    ensures FailureBelow(c.graph, s, k)
  {
    var path, b := DeepestFailure(c, w0, rank, k);
    FailedIffOwn(c, w0, s, b);
  }

  lemma FailureBelowBlocks<V>(c: Config<V>, w0: map<Key, V>, s: State<V>, k: Key)
    requires Foretold(c, w0, s) && FailureBelow(c.graph, s, k)
    ensures Blocked(c, w0, k)
  {
    var path, b :| Path(c.graph, k, path, b) && HasFailed(s, b);
    FailedIffOwn(c, w0, s, b);
  }
}

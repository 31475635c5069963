/**
 The failure mark of a waiter is stored in a critical section of its own, after the one that enqueues
 the waiter. When exactly can the waiter read its mark before it is stored?
 */
module SchedulerLateMark {
  import opened Prelude
  import opened Scheduler
  import opened SchedulerSafety
  import opened SchedulerLiveness
  import opened SchedulerDeterminism

  /** Node k is about to find no error, although a node in its Before has recorded one. */
  ghost predicate MissesFailure<V>(c: Config<V>, s: State<V>, k: Key) {
    && k in s.pc && s.pc[k] == Started && k !in s.wasError
    && exists e :: e in c.graph.Before(k) && c.graph.edges[e].needed in s.wasError
  }

  ghost predicate DistinctEdges(g: Graph) {
    forall i, j :: 0 <= i < j < |g.edges| ==> g.edges[i] != g.edges[j]
  }

  // ---- With marks in time, nothing is missed.

  ghost predicate MarkedFail<V>(c: Config<V>, w0: map<Key, V>, s: State<V>) {
    forall k :: k in s.wasError ==> Fails(c, w0, k)
  }

  /** The nodes a move marks as failed. */
  function Marks<V>(c: Config<V>, s: State<V>, m: Move): set<Key>
    requires Enabled(c, s, m)
  {
    match m
    case StoreOwnError(k) => {k}
    case MarkWaiter(k) => {c.graph.edges[s.pc[k].rest[0]].waiter}
    case Decrement(k) => if s.pc[k].err && c.atomicMark then {c.graph.edges[s.pc[k].rest[0]].waiter} else {}
    case _ => {}
  }

  lemma MarksStored<V>(c: Config<V>, s: State<V>, m: Move)
    requires Enabled(c, s, m)
    ensures Do(c, s, m).wasError == s.wasError + Marks(c, s, m)
  {
  }

  lemma MarkedFailStep<V>(c: Config<V>, w0: map<Key, V>, s: State<V>, m: Move)
    requires Inv(c, s) && Foreseen(c, w0, s) && MarksInTime(c, w0) && MarkedFail(c, w0, s) && Enabled(c, s, m)
    ensures MarkedFail(c, w0, Do(c, s, m))
  {
    MarksStored(c, s, m);
    MarksFail(c, w0, s, m);
  }

  lemma MarksFail<V>(c: Config<V>, w0: map<Key, V>, s: State<V>, m: Move)
    requires ShapeInv(c, s) && Enabled(c, s, m)
    requires forall k :: k in s.pc && k in c.graph.sizes ==> NodeAsForeseen(c, w0, s.pc[k], Lookup(s.world, k), k)
    ensures forall x :: x in Marks(c, s, m) ==> Fails(c, w0, x)
  {
    if m.Decrement? && Fails(c, w0, m.k) {
      DecrementBlocks(c, w0, s, m.k);
    }
  }

  lemma DecrementBlocks<V>(c: Config<V>, w0: map<Key, V>, s: State<V>, k: Key)
    requires ShapeInv(c, s) && Enabled(c, s, Decrement(k)) && Fails(c, w0, k)
    ensures Fails(c, w0, c.graph.edges[s.pc[k].rest[0]].waiter)
  {
    assert s.pc[k].rest[0] in s.pc[k].rest;
    BlockedByEdge(c, w0, s.pc[k].rest[0]);
  }

  lemma {:induction false} LeadsMarkedFail<V(!new)>(c: Config<V>, w0: map<Key, V>, s: State<V>, moves: seq<Move>, t: State<V>)
    requires Inv(c, s) && Foreseen(c, w0, s) && MarksInTime(c, w0) && MarkedFail(c, w0, s) && Leads(c, s, moves, t)
    ensures MarkedFail(c, w0, t)
    decreases |moves|
  {
    if moves != [] {
      MarkedFailStep(c, w0, s, moves[0]);
      MoveForeseen(c, w0, s, moves[0]);
      StepInv(c, s, moves[0]);
      LeadsMarkedFail(c, w0, Do(c, s, moves[0]), moves[1..], t);
    }
  }

  lemma NothingMissed<V(!new)>(c: Config<V>, s0: State<V>, moves: seq<Move>, s: State<V>, k: Key)
    requires Init(c, s0) && Leads(c, s0, moves, s) && MarksInTime(c, s0.world)
    ensures !MissesFailure(c, s, k)
  {
    InitInv(c, s0);
    InitForeseen(c, s0);
    LeadsInv(c, s0, moves, s);
    LeadsForeseen(c, s0.world, s0, moves, s);
    LeadsMarkedFail(c, s0.world, s0, moves, s);
    if k in s.pc && s.pc[k] == Started {
      ReadsInTime(c, s0.world, s, k);
    }
  }

  lemma ReadsInTime<V>(c: Config<V>, w0: map<Key, V>, s: State<V>, k: Key)
    requires ShapeInv(c, s) && DegreeInv(c, s) && Foreseen(c, w0, s) && MarkedFail(c, w0, s)
    requires k in s.pc && s.pc[k] == Started
    ensures !MissesFailure(c, s, k)
  {
    NothingPending(c, s, k);
    forall e | e in c.graph.Before(k) && c.graph.edges[e].needed in s.wasError ensures k in s.wasError {
      assert e in FailuresReported(c, w0, s, k);
    }
  }

  // ---- Otherwise, some schedule misses a failure.

  /** Edge e leads to a node that fails by itself, and no such edge has a waiter of lower rank. */
  ghost predicate LowestFailure<V>(c: Config<V>, w0: map<Key, V>, rank: map<Key, nat>, e: nat) {
    && c.graph.Valid() && Ranked(c.graph, rank)
    && e < |c.graph.edges| && OwnFails(c, w0, c.graph.edges[e].needed)
    && forall e': nat :: e' < |c.graph.edges| && OwnFails(c, w0, c.graph.edges[e'].needed) ==>
         c.graph.edges[e'].waiter in rank && c.graph.edges[e].waiter in rank
         && rank[c.graph.edges[e].waiter] <= rank[c.graph.edges[e'].waiter]
  }

  lemma {:induction false} FindLowest<V>(c: Config<V>, w0: map<Key, V>, rank: map<Key, nat>, e: nat) returns (low: nat)
    requires c.graph.Valid() && Ranked(c.graph, rank)
    requires e < |c.graph.edges| && OwnFails(c, w0, c.graph.edges[e].needed)
    ensures LowestFailure(c, w0, rank, low)
    decreases rank[c.graph.edges[e].waiter]
  {
    if e': nat :| e' < |c.graph.edges| && OwnFails(c, w0, c.graph.edges[e'].needed)
                  && rank[c.graph.edges[e'].waiter] < rank[c.graph.edges[e].waiter] {
      low := FindLowest(c, w0, rank, e');
    } else {
      low := e;
    }
  }

  /** A node below the waiter of the lowest failure: only its own actions can have failed it. */
  ghost predicate LowNode<V>(c: Config<V>, w0: map<Key, V>, p: Pc, v: Option<V>, marked: bool, k: Key)
    requires k in c.graph.sizes
  {
    match p
    case Running(i, err) => i <= c.graph.sizes[k] && (v, err) == Alone(c, k, i, Lookup(w0, k))
    case MarkSelf => OwnFails(c, w0, k)
    case Notify(_, err) => err == OwnFails(c, w0, k) && (err ==> marked)
    case MarkNext(_) => OwnFails(c, w0, k) && marked
    case Finished => OwnFails(c, w0, k) ==> marked
    case _ => !marked && v == Lookup(w0, k)
  }

  ghost predicate Low(rank: map<Key, nat>, k: Key, m: Key) {
    k in rank && m in rank && rank[k] < rank[m]
  }

  ghost predicate Staged<V>(c: Config<V>, w0: map<Key, V>, rank: map<Key, nat>, m: Key, s: State<V>) {
    && m in s.pc && NotYetRead(s.pc[m]) && m !in s.wasError
    && forall k :: k in s.pc && k in c.graph.sizes && Low(rank, k, m) ==>
         LowNode(c, w0, s.pc[k], Lookup(s.world, k), k in s.wasError, k)
  }

  /** The moves that keep the stage: m does not read, and no one marks m. */
  ghost predicate Allowed<V>(c: Config<V>, s: State<V>, m: Key, move: Move) {
    && Enabled(c, s, move)
    && move != ReadError(m)
    && (move.MarkWaiter? ==> c.graph.edges[s.pc[move.k].rest[0]].waiter != m)
  }

  lemma LowNodeStep<V>(c: Config<V>, w0: map<Key, V>, s: State<V>, k: Key, move: Move)
    requires !c.atomicMark && k in c.graph.sizes && k in s.pc && Enabled(c, s, move) && IsStep(move) && move.k == k
    requires LowNode(c, w0, s.pc[k], Lookup(s.world, k), k in s.wasError, k)
    requires move.MarkWaiter? ==> c.graph.edges[s.pc[k].rest[0]].waiter != k
    ensures LowNode(c, w0, NextPc(c, s, move), Lookup(s.world, k), k in Do(c, s, move).wasError, k)
  {
  }

  lemma LowNodeAction<V>(c: Config<V>, w0: map<Key, V>, s: State<V>, k: Key)
    requires k in c.graph.sizes && Enabled(c, s, RunAction(k))
    requires LowNode(c, w0, s.pc[k], Lookup(s.world, k), k in s.wasError, k)
    ensures var t := DoAction(c, s, k); LowNode(c, w0, t.pc[k], Lookup(t.world, k), k in t.wasError, k)
  {
    ActionWrites(c, s, k);
    AloneNext(c, k, s.pc[k].next, Lookup(w0, k));
  }

  /** What a move of node k may change, seen from the stage. */
  lemma StagedKept<V>(c: Config<V>, w0: map<Key, V>, rank: map<Key, nat>, m: Key, s: State<V>, t: State<V>, k: Key, marks: set<Key>)
    requires Staged(c, w0, rank, m, s) && k in s.pc && s.pc.Keys == t.pc.Keys
    requires forall x :: x in s.pc && x != k ==>
      t.pc[x] == s.pc[x] || (s.pc[x] == Idle && t.pc[x] == Queued)
    requires forall x :: x != k ==> Lookup(t.world, x) == Lookup(s.world, x)
    requires t.wasError == s.wasError + marks && m !in marks
    requires forall x :: x in marks && Low(rank, x, m) ==> x == k
    requires k == m ==> NotYetRead(t.pc[m])
    requires Low(rank, k, m) && k in c.graph.sizes ==> LowNode(c, w0, t.pc[k], Lookup(t.world, k), k in t.wasError, k)
    ensures Staged(c, w0, rank, m, t)
  {
  }

  /** A goroutine's own step leaves the stage set. */
  lemma StagedStep<V>(c: Config<V>, w0: map<Key, V>, rank: map<Key, nat>, low: nat, s: State<V>, move: Move)
    requires ShapeInv(c, s) && !c.atomicMark && LowestFailure(c, w0, rank, low)
    requires Staged(c, w0, rank, c.graph.edges[low].waiter, s) && Allowed(c, s, c.graph.edges[low].waiter, move)
    requires IsStep(move)
    ensures Staged(c, w0, rank, c.graph.edges[low].waiter, Do(c, s, move))
  {
    var m := c.graph.edges[low].waiter;
    var k := move.k;
    StepEffect(c, s, move);
    MarksStored(c, s, move);
    StepNotOnM(c, s, m, move);
    if move.MarkWaiter? {
      MarkedIsHigh(c, w0, rank, low, s, move);
    }
    if Low(rank, k, m) {
      LowNodeStep(c, w0, s, k, move);
    }
    StagedKept(c, w0, rank, m, s, Do(c, s, move), k, Marks(c, s, move));
  }

  lemma StepNotOnM<V>(c: Config<V>, s: State<V>, m: Key, move: Move)
    requires m in s.pc && NotYetRead(s.pc[m]) && Enabled(c, s, move) && IsStep(move) && move != ReadError(m)
    ensures move.k != m
  {
  }

  /** While the stage is set, only waiters of a rank at least that of m get marked. */
  lemma MarkedIsHigh<V>(c: Config<V>, w0: map<Key, V>, rank: map<Key, nat>, low: nat, s: State<V>, move: Move)
    requires ShapeInv(c, s) && LowestFailure(c, w0, rank, low)
    requires Staged(c, w0, rank, c.graph.edges[low].waiter, s)
    requires Enabled(c, s, move) && move.MarkWaiter?
    ensures !Low(rank, c.graph.edges[s.pc[move.k].rest[0]].waiter, c.graph.edges[low].waiter)
  {
  }

  lemma StagedDecrement<V>(c: Config<V>, w0: map<Key, V>, rank: map<Key, nat>, m: Key, s: State<V>, k: Key)
    requires Inv(c, s) && !c.atomicMark && Staged(c, w0, rank, m, s) && Enabled(c, s, Decrement(k))
    ensures Staged(c, w0, rank, m, Do(c, s, Decrement(k)))
  {
    DecrementSafe(c, s, k);
    var t, w := DoDecrement(c, s, k), c.graph.edges[s.pc[k].rest[0]].waiter;
    DecrementSummary(c, s, k, w);
    DecrementKeepsStage(c, w0, rank, m, s, t, k, w);
  }

  lemma DecrementSummary<V>(c: Config<V>, s: State<V>, k: Key, w: Key)
    requires Enabled(c, s, Decrement(k)) && w == c.graph.edges[s.pc[k].rest[0]].waiter && !c.atomicMark
    requires w != k && s.pc[w] == Idle && s.deg[w] > 0 && !s.closed
    ensures var t := DoDecrement(c, s, k);
      && Decremented(s, t, k, w) && t.world == s.world && t.wasError == s.wasError
      && t.pc[k] == if s.pc[k].err then MarkNext(s.pc[k].rest) else Notify(s.pc[k].rest[1..], s.pc[k].err)
  {
  }

  lemma DecrementKeepsStage<V>(c: Config<V>, w0: map<Key, V>, rank: map<Key, nat>, m: Key, s: State<V>, t: State<V>, k: Key, w: Key)
    requires Staged(c, w0, rank, m, s) && Decremented(s, t, k, w)
    requires t.world == s.world && t.wasError == s.wasError
    requires t.pc[k] == if s.pc[k].err then MarkNext(s.pc[k].rest) else Notify(s.pc[k].rest[1..], s.pc[k].err)
    ensures Staged(c, w0, rank, m, t)
  {
  }

  lemma StagedAction<V>(c: Config<V>, w0: map<Key, V>, rank: map<Key, nat>, m: Key, s: State<V>, k: Key)
    requires Staged(c, w0, rank, m, s) && Enabled(c, s, RunAction(k))
    ensures Staged(c, w0, rank, m, Do(c, s, RunAction(k)))
  {
    var o := ActionEffect(c, s, k);
    ActionWrites(c, s, k);
    if Low(rank, k, m) {
      LowNodeAction(c, w0, s, k);
    }
    StagedKept(c, w0, rank, m, s, DoAction(c, s, k), k, {});
  }

  lemma StagedDispatch<V>(c: Config<V>, w0: map<Key, V>, rank: map<Key, nat>, m: Key, s: State<V>, move: Move)
    requires QueueInv(s) && Staged(c, w0, rank, m, s) && Enabled(c, s, move)
    requires move.Dispatch? || move.Close? || move.Return?
    ensures Staged(c, w0, rank, m, Do(c, s, move))
  {
  }

  lemma StagedMove<V>(c: Config<V>, w0: map<Key, V>, rank: map<Key, nat>, low: nat, s: State<V>, move: Move)
    requires Inv(c, s) && !c.atomicMark && LowestFailure(c, w0, rank, low)
    requires Staged(c, w0, rank, c.graph.edges[low].waiter, s) && Allowed(c, s, c.graph.edges[low].waiter, move)
    ensures Staged(c, w0, rank, c.graph.edges[low].waiter, Do(c, s, move))
  {
    var m := c.graph.edges[low].waiter;
    if IsStep(move) {
      StagedStep(c, w0, rank, low, s, move);
    } else if move.Decrement? {
      StagedDecrement(c, w0, rank, m, s, move.k);
    } else if move.RunAction? {
      StagedAction(c, w0, rank, m, s, move.k);
    } else {
      StagedDispatch(c, w0, rank, m, s, move);
    }
  }

  /** Until m is dispatched, some move that keeps the stage is enabled. */
  lemma StageMoves<V>(c: Config<V>, w0: map<Key, V>, rank: map<Key, nat>, low: nat, s: State<V>) returns (move: Move)
    requires Inv(c, s) && !c.atomicMark && LowestFailure(c, w0, rank, low) && DistinctEdges(c.graph)
    requires Staged(c, w0, rank, c.graph.edges[low].waiter, s) && s.pc[c.graph.edges[low].waiter] != Started
    ensures Allowed(c, s, c.graph.edges[low].waiter, move)
  {
    var m := c.graph.edges[low].waiter;
    if s.pc[m] == Queued {
      assert m in s.queue;
      assert s.queue[0] in s.queue;
      move := Dispatch;
    } else {
      assert Pending(c, s, m) != {};
      var e :| e in Pending(c, s, m);
      move := LowMoves(c, w0, rank, low, s, e);
    }
  }

  lemma {:induction false} LowMoves<V>(c: Config<V>, w0: map<Key, V>, rank: map<Key, nat>, low: nat, s: State<V>, e: nat)
    returns (move: Move)
    requires Inv(c, s) && !c.atomicMark && LowestFailure(c, w0, rank, low) && DistinctEdges(c.graph)
    requires Staged(c, w0, rank, c.graph.edges[low].waiter, s)
    requires e < |c.graph.edges| && e in Pending(c, s, c.graph.edges[e].waiter)
    requires c.graph.edges[e].waiter == c.graph.edges[low].waiter
             || Low(rank, c.graph.edges[e].waiter, c.graph.edges[low].waiter)
    ensures Allowed(c, s, c.graph.edges[low].waiter, move)
    decreases rank[c.graph.edges[e].waiter]
  {
    var m, k := c.graph.edges[low].waiter, c.graph.edges[e].needed;
    if s.pc[k] == Idle {
      assert Pending(c, s, k) != {};
      var e' :| e' in Pending(c, s, k);
      move := LowMoves(c, w0, rank, low, s, e');
    } else if s.pc[k].MarkNext? {
      MarksOther(c, w0, rank, low, s, e);
      move := MarkWaiter(k);
    } else {
      move := BusyMoves(c, s, k, e);
    }
  }

  /** A node that has still to decrement for e, and is not stuck on a mark, has a move. */
  lemma BusyMoves<V>(c: Config<V>, s: State<V>, k: Key, e: nat) returns (move: Move)
    requires Inv(c, s) && k in s.pc && s.pc[k] != Idle && !s.pc[k].MarkNext? && Outstanding(s.pc[k], e)
    ensures Enabled(c, s, move) && (move == Dispatch || (!move.MarkWaiter? && !move.Close? && !move.Return? && move.k == k))
  {
    match s.pc[k]
    case Queued =>
      assert k in s.queue;
      assert s.queue[0] in s.queue;
      move := Dispatch;
    case Started => move := ReadError(k);
    case Running(i, _) => move := if i < c.graph.sizes[k] then RunAction(k) else LeaveActions(k);
    case MarkSelf => move := StoreOwnError(k);
    case Notify(rest, _) =>
      DecrementSafe(c, s, k);
      move := Decrement(k);
  }

  /** A failed node about to store a mark, with m still to decrement, is marking another node than m. */
  lemma MarksOther<V>(c: Config<V>, w0: map<Key, V>, rank: map<Key, nat>, low: nat, s: State<V>, e: nat)
    requires ShapeInv(c, s) && !s.panicked && LowestFailure(c, w0, rank, low) && DistinctEdges(c.graph)
    requires Staged(c, w0, rank, c.graph.edges[low].waiter, s)
    requires e < |c.graph.edges| && c.graph.edges[e].needed in s.pc
    requires s.pc[c.graph.edges[e].needed].MarkNext? && Outstanding(s.pc[c.graph.edges[e].needed], e)
    requires c.graph.edges[e].waiter == c.graph.edges[low].waiter
             || Low(rank, c.graph.edges[e].waiter, c.graph.edges[low].waiter)
    ensures Allowed(c, s, c.graph.edges[low].waiter, MarkWaiter(c.graph.edges[e].needed))
  {
  }

  /** Plays allowed moves until m is about to read. */
  lemma {:induction false} PlayStage<V(!new)>(c: Config<V>, w0: map<Key, V>, rank: map<Key, nat>, low: nat, s: State<V>)
    returns (moves: seq<Move>, t: State<V>)
    requires Inv(c, s) && !c.atomicMark && LowestFailure(c, w0, rank, low) && DistinctEdges(c.graph)
    requires Staged(c, w0, rank, c.graph.edges[low].waiter, s)
    ensures Leads(c, s, moves, t) && MissesFailure(c, t, c.graph.edges[low].waiter)
    decreases Fuel(c, s)
  {
    if s.pc[c.graph.edges[low].waiter] == Started {
      StageSet(c, w0, rank, low, s);
      moves, t := [], s;
    } else {
      var move := StageMoves(c, w0, rank, low, s);
      StagedMove(c, w0, rank, low, s, move);
      StepInv(c, s, move);
      MoveBurnsFuel(c, s, move);
      moves, t := PlayStage(c, w0, rank, low, Do(c, s, move));
      moves := [move] + moves;
    }
  }

  lemma StageSet<V>(c: Config<V>, w0: map<Key, V>, rank: map<Key, nat>, low: nat, s: State<V>)
    requires Inv(c, s) && LowestFailure(c, w0, rank, low)
    requires Staged(c, w0, rank, c.graph.edges[low].waiter, s) && s.pc[c.graph.edges[low].waiter] == Started
    ensures MissesFailure(c, s, c.graph.edges[low].waiter)
  {
    var m, b := c.graph.edges[low].waiter, c.graph.edges[low].needed;
    NothingPending(c, s, m);
    assert low in c.graph.Before(m) && low !in Pending(c, s, m);
    assert LowNode(c, w0, s.pc[b], Lookup(s.world, b), b in s.wasError, b);
  }

  lemma InitStaged<V>(c: Config<V>, rank: map<Key, nat>, low: nat, s: State<V>)
    requires Init(c, s) && LowestFailure(c, s.world, rank, low)
    ensures Staged(c, s.world, rank, c.graph.edges[low].waiter, s)
  {
  }

  /**
   The exact condition. On an acyclic plan with distinct edges, executed as coded, some schedule lets a
   node read its error mark too early if and only if a node whose own actions fail has a waiter.
   */
  lemma FailureMissedIffFailingNodeHasWaiter<V(!new)>(c: Config<V>, s0: State<V>)
    requires Init(c, s0) && Acyclic(c.graph) && DistinctEdges(c.graph) && !c.atomicMark
    ensures (exists moves, s, k :: Leads(c, s0, moves, s) && MissesFailure(c, s, k))
       <==> (exists e :: 0 <= e < |c.graph.edges| && OwnFails(c, s0.world, c.graph.edges[e].needed))
  {
    if MarksInTime(c, s0.world) {
      forall moves, s, k | Leads(c, s0, moves, s) ensures !MissesFailure(c, s, k) {
        NothingMissed(c, s0, moves, s, k);
      }
    } else {
      var e :| 0 <= e < |c.graph.edges| && OwnFails(c, s0.world, c.graph.edges[e].needed);
      SomethingMissed(c, s0, e);
    }
  }

  lemma SomethingMissed<V(!new)>(c: Config<V>, s0: State<V>, e: nat)
    requires Init(c, s0) && Acyclic(c.graph) && DistinctEdges(c.graph) && !c.atomicMark
    requires e < |c.graph.edges| && OwnFails(c, s0.world, c.graph.edges[e].needed)
    ensures exists moves, s, k :: Leads(c, s0, moves, s) && MissesFailure(c, s, k)
  {
    var rank :| Ranked(c.graph, rank);
    var low := FindLowest(c, s0.world, rank, e);
    InitInv(c, s0);
    InitStaged(c, rank, low, s0);
    var moves, s := PlayStage(c, s0.world, rank, low, s0);
  }

  /** The consequence: the first action of a node that misses a failure is not skipped. */
  lemma MissedFailureRunsAction<V(!new)>(c: Config<V>, s: State<V>, k: Key) returns (t: State<V>)
    requires MissesFailure(c, s, k) && !s.panicked && k in c.graph.sizes && c.graph.sizes[k] > 0
    ensures Leads(c, s, [ReadError(k), RunAction(k)], t)
    ensures ActionId(k, 0) in t.outcomes && t.outcomes[ActionId(k, 0)] != Skipped
  {
    var r := Do(c, s, ReadError(k));
    StepEffect(c, s, ReadError(k));
    ActionWrites(c, r, k);
    t := Do(c, r, RunAction(k));
    assert [ReadError(k), RunAction(k)][1..] == [RunAction(k)];
    assert Leads(c, r, [RunAction(k)], t) by {
      assert [RunAction(k)][1..] == [];
    }
  }
}

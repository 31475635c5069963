/** Exactly when all schedules of a plan agree on what becomes of its actions. */
module SchedulerAgreement {
  import opened Prelude
  import opened Scheduler
  import opened SchedulerSafety
  import opened SchedulerLiveness
  import opened SchedulerDeterminism
  import opened SchedulerFineGrain
  import opened SchedulerLateMark

  /** The moves that take a single critical section for decrement and mark apart into the two that are coded. */
  function Apart<V>(c: Config<V>, s: State<V>, m: Move): seq<Move>
    requires Enabled(c, s, m)
  {
    if m.Decrement? && s.pc[m.k].err then [m, MarkWaiter(m.k)] else [m]
  }

  /** One after the other, they have the same effect. */
  lemma ApartSame<V(!new)>(c: Config<V>, s: State<V>, m: Move)
    requires c.atomicMark && Inv(c, s) && Enabled(c, s, m)
    ensures Leads(c.(atomicMark := false), s, Apart(c, s, m), Do(c, s, m))
  {
    var fine := c.(atomicMark := false);
    if m.Decrement? && s.pc[m.k].err {
      var k := m.k;
      DecrementSafe(c, s, k);
      DecrementEffect(c, s, k, c.graph.edges[s.pc[k].rest[0]].waiter);
      DecrementThenMark(c, s, k);
      TwoMoves(fine, s, m, MarkWaiter(k));
    } else {
      SameMove(c, s, m);
      assert [m][1..] == [];
    }
  }

  lemma SameMove<V>(c: Config<V>, s: State<V>, m: Move)
    requires c.atomicMark && Enabled(c, s, m) && !(m.Decrement? && s.pc[m.k].err)
    ensures var fine := c.(atomicMark := false); Enabled(fine, s, m) && Do(fine, s, m) == Do(c, s, m)
  {
  }

  lemma TwoMoves<V(!new)>(c: Config<V>, s: State<V>, m: Move, m': Move)
    requires Enabled(c, s, m) && Enabled(c, Do(c, s, m), m')
    ensures Leads(c, s, [m, m'], Do(c, Do(c, s, m), m'))
  {
    var t := Do(c, s, m);
    assert [m, m'][1..] == [m'] && [m'][1..] == [];
    assert Leads(c, t, [m'], Do(c, t, m'));
  }

  lemma DecrementThenMark<V>(c: Config<V>, s: State<V>, k: Key)
    requires c.atomicMark && Enabled(c, s, Decrement(k)) && s.pc[k].err && !DoDecrement(c, s, k).panicked
    requires c.graph.edges[s.pc[k].rest[0]].waiter != k
    ensures Enabled(c.(atomicMark := false), s, Decrement(k))
    ensures var fine := c.(atomicMark := false); var t := DoDecrement(fine, s, k);
      Enabled(fine, t, MarkWaiter(k)) && Do(fine, t, MarkWaiter(k)) == DoDecrement(c, s, k)
  {
    var fine := c.(atomicMark := false);
    var t, u := DoDecrement(fine, s, k), DoDecrement(c, s, k);
    assert t.pc[k] == MarkNext(s.pc[k].rest);
    assert Do(fine, t, MarkWaiter(k)).pc == u.pc;
  }

  lemma {:induction false} LeadsOn<V(!new)>(c: Config<V>, s: State<V>, moves: seq<Move>, t: State<V>, more: seq<Move>, u: State<V>)
    requires Leads(c, s, moves, t) && Leads(c, t, more, u)
    ensures Leads(c, s, moves + more, u)
    decreases |moves|
  {
    if moves == [] {
      assert moves + more == more;
    } else {
      LeadsOn(c, Do(c, s, moves[0]), moves[1..], t, more, u);
      assert (moves + more)[1..] == moves[1..] + more;
    }
  }

  /** Every run with the mark as part of the decrement is also a run of the code, with prompt marks. */
  lemma {:induction false} PromptRun<V(!new)>(c: Config<V>, s: State<V>, moves: seq<Move>, t: State<V>) returns (fine: seq<Move>)
    requires c.atomicMark && Inv(c, s) && Leads(c, s, moves, t)
    ensures Leads(c.(atomicMark := false), s, fine, t)
    decreases |moves|
  {
    if moves == [] {
      fine := [];
    } else {
      var u := Do(c, s, moves[0]);
      StepInv(c, s, moves[0]);
      ApartSame(c, s, moves[0]);
      fine := PromptRun(c, u, moves[1..], t);
      LeadsOn(c.(atomicMark := false), s, Apart(c, s, moves[0]), u, fine, t);
      fine := Apart(c, s, moves[0]) + fine;
    }
  }

  /** A finished run in which the first action of the waiter of a failed node is not skipped. */
  lemma MissingRun<V(!new)>(c: Config<V>, s0: State<V>, e: nat) returns (moves: seq<Move>, s: State<V>, k: Key)
    requires Init(c, s0) && Acyclic(c.graph) && DistinctEdges(c.graph) && !c.atomicMark
    requires forall i: nat :: i < |c.graph.edges| ==> c.graph.edges[i].waiter in c.graph.sizes && c.graph.sizes[c.graph.edges[i].waiter] > 0
    requires e < |c.graph.edges| && OwnFails(c, s0.world, c.graph.edges[e].needed)
    ensures Leads(c, s0, moves, s) && s.returned && k in c.graph.sizes && c.graph.sizes[k] > 0
    ensures exists i: nat :: i < |c.graph.edges| && c.graph.edges[i].waiter == k && OwnFails(c, s0.world, c.graph.edges[i].needed)
    ensures Lookup(s.outcomes, ActionId(k, 0)) != Some(Skipped)
  {
    var rank :| Ranked(c.graph, rank);
    var low := FindLowest(c, s0.world, rank, e);
    k := c.graph.edges[low].waiter;
    InitInv(c, s0);
    InitStaged(c, rank, low, s0);
    var moves1, s1 := PlayStage(c, s0.world, rank, low, s0);
    LeadsInv(c, s0, moves1, s1);
    var s2 := MissedFailureRunsAction(c, s1, k);
    LeadsOn(c, s0, moves1, s1, [ReadError(k), RunAction(k)], s2);
    var moves2 := moves1 + [ReadError(k), RunAction(k)];
    LeadsInv(c, s0, moves2, s2);
    var moves3, s3 := RunToReturn(c, s2, rank);
    OutcomeStays(c, s2, moves3, s3, ActionId(k, 0));
    LeadsOn(c, s0, moves2, s2, moves3, s3);
    moves, s := moves2 + moves3, s3;
  }

  /** What has become of an action is never changed. */
  lemma {:induction false} OutcomeStays<V(!new)>(c: Config<V>, s: State<V>, moves: seq<Move>, t: State<V>, a: ActionId)
    requires Inv(c, s) && Leads(c, s, moves, t) && a in s.outcomes
    ensures Lookup(t.outcomes, a) == Lookup(s.outcomes, a)
    decreases |moves|
  {
    if moves != [] {
      StepInv(c, s, moves[0]);
      OutcomeKept(c, s, moves[0], a);
      OutcomeStays(c, Do(c, s, moves[0]), moves[1..], t, a);
    }
  }

  lemma OutcomeKept<V>(c: Config<V>, s: State<V>, m: Move, a: ActionId)
    requires CountInv(c, s) && Enabled(c, s, m) && a in s.outcomes
    ensures Lookup(Do(c, s, m).outcomes, a) == Lookup(s.outcomes, a)
  {
    if m.RunAction? {
      var o := ActionEffect(c, s, m.k);
      assert ActionId(m.k, s.pc[m.k].next) !in s.outcomes;
    }
  }

  /** Two finished runs from the same world that differ in the outcome of some action. */
  ghost predicate Disagree<V(!new)>(c: Config<V>, s0: State<V>) {
    exists moves, s: State<V>, moves', s': State<V> ::
      Leads(c, s0, moves, s) && s.returned && Leads(c, s0, moves', s') && s'.returned && s.outcomes != s'.outcomes
  }

  /**
   On an acyclic plan whose waiting nodes all have something to do, all schedules agree on the outcomes of all
   actions exactly if failure marks are in time: if they are part of the decrement, or no failing node has a waiter.
   */
  lemma AgreeIffMarksInTime<V(!new)>(c: Config<V>, s0: State<V>)
    requires Init(c, s0) && Acyclic(c.graph) && DistinctEdges(c.graph)
    requires forall i: nat :: i < |c.graph.edges| ==> c.graph.edges[i].waiter in c.graph.sizes && c.graph.sizes[c.graph.edges[i].waiter] > 0
    ensures Disagree(c, s0) <==> !MarksInTime(c, s0.world)
  {
    if MarksInTime(c, s0.world) {
      forall moves, s: State<V>, moves', s': State<V> |
          Leads(c, s0, moves, s) && s.returned && Leads(c, s0, moves', s') && s'.returned
        ensures s.outcomes == s'.outcomes
      {
        SchedulesAgree(c, s0, moves, s, s0, moves', s');
      }
    } else {
      var e: nat :| e < |c.graph.edges| && OwnFails(c, s0.world, c.graph.edges[e].needed);
      var moves, s, k := MissingRun(c, s0, e);
      var moves', s' := SkippingRun(c, s0, k);
      assert s.outcomes != s'.outcomes;
    }
  }

  /** A finished run in which that action is skipped: the one with prompt marks. */
  lemma SkippingRun<V(!new)>(c: Config<V>, s0: State<V>, k: Key) returns (moves: seq<Move>, s: State<V>)
    requires Init(c, s0) && Acyclic(c.graph) && !c.atomicMark && k in c.graph.sizes && c.graph.sizes[k] > 0
    requires exists i: nat :: i < |c.graph.edges| && c.graph.edges[i].waiter == k && OwnFails(c, s0.world, c.graph.edges[i].needed)
    ensures Leads(c, s0, moves, s) && s.returned && Lookup(s.outcomes, ActionId(k, 0)) == Some(Skipped)
  {
    var coarse := c.(atomicMark := true);
    var i: nat :| i < |c.graph.edges| && c.graph.edges[i].waiter == k && OwnFails(c, s0.world, c.graph.edges[i].needed);
    SameAlone(c, coarse, s0.world, c.graph.edges[i].needed);
    BlockedByEdge(coarse, s0.world, i);
    AcyclicReturns(coarse, s0);
    var coarseMoves: seq<Move>;
    coarseMoves, s :| Leads(coarse, s0, coarseMoves, s) && s.returned;
    ReturnedAsForetold(coarse, s0, coarseMoves, s);
    assert ActionId(k, 0) in coarse.graph.AllActions();
    InitInv(coarse, s0);
    moves := PromptRun(coarse, s0, coarseMoves, s);
    assert coarse.(atomicMark := false) == c;
  }

  lemma SameAlone<V>(c: Config<V>, c': Config<V>, w0: map<Key, V>, k: Key)
    requires c' == c.(atomicMark := true)
    ensures OwnFails(c', w0, k) <==> OwnFails(c, w0, k)
  {
    if k in c.graph.sizes {
      SameAloneUpTo(c, c', k, c.graph.sizes[k], Lookup(w0, k));
    }
  }

  lemma {:induction false} SameAloneUpTo<V>(c: Config<V>, c': Config<V>, k: Key, i: nat, v: Option<V>)
    requires c'.exec == c.exec
    ensures Alone(c', k, i, v) == Alone(c, k, i, v)
  {
    if i > 0 {
      SameAloneUpTo(c, c', k, i - 1, v);
    }
  }
}

/**
 When the scheduler returns, and what its counters then say.
 */
module SchedulerLiveness {
  import opened Prelude
  import opened Scheduler
  import opened SchedulerSafety

  /** The rank of a node exceeds the rank of each of its Before nodes. */
  ghost predicate Ranked(g: Graph, rank: map<Key, nat>) {
    && (forall k :: k in g.sizes ==> k in rank)
    && forall e :: 0 <= e < |g.edges| && g.edges[e].needed in rank && g.edges[e].waiter in rank ==>
         rank[g.edges[e].needed] < rank[g.edges[e].waiter]
  }

  ghost predicate Acyclic(g: Graph) {
    exists rank :: Ranked(g, rank)
  }

  /** How many moves the goroutine of a node may still make. */
  function MovesLeft(g: Graph, k: Key, p: Pc): nat
    requires k in g.sizes
  {
    var r, n := 2 * |g.BeforeRev(k)|, g.sizes[k];
    match p
    case Idle => r + n + 7
    case Queued => r + n + 6
    case Started => r + n + 5
    case Running(i, _) => r + 4 + if i <= n then n - i else 0
    case MarkSelf => r + 3
    case Notify(rest, _) => 2 * |rest| + 2
    case MarkNext(rest) => 2 * |rest| + 1
    case Finished => 0
  }

  ghost function Tokens<V>(c: Config<V>, s: State<V>): set<(Key, nat)> {
    set k, q: nat | k in s.pc && k in c.graph.sizes && q < MovesLeft(c.graph, k, s.pc[k]) :: (k, q)
  }

  ghost function Fuel<V>(c: Config<V>, s: State<V>): nat {
    |Tokens(c, s)| + (if s.closed then 0 else 1) + (if s.returned then 0 else 1)
  }

  /** Every move burns fuel. */
  lemma MoveBurnsFuel<V>(c: Config<V>, s: State<V>, m: Move)
    requires Inv(c, s) && Enabled(c, s, m)
    ensures Fuel(c, Do(c, s, m)) < Fuel(c, s)
  {
    var t := Do(c, s, m);
    if !m.Close? && !m.Return? {
      var k := MoverAdvances(c, s, m);
      TokensShrink(c, s, t, k);
    }
  }

  /** Node k has got further, and no node has moved back. */
  ghost predicate Advanced(g: Graph, pc: map<Key, Pc>, pc': map<Key, Pc>, k: Key) {
    && pc'.Keys == pc.Keys == g.sizes.Keys && k in pc
    && MovesLeft(g, k, pc'[k]) < MovesLeft(g, k, pc[k])
    && forall x :: x in pc ==> MovesLeft(g, x, pc'[x]) <= MovesLeft(g, x, pc[x])
  }

  lemma MoverAdvances<V>(c: Config<V>, s: State<V>, m: Move) returns (k: Key)
    requires Inv(c, s) && Enabled(c, s, m) && !m.Close? && !m.Return?
    ensures var t := Do(c, s, m);
      Advanced(c.graph, s.pc, t.pc, k) && t.closed == s.closed && t.returned == s.returned
  {
    if m.Dispatch? {
      k := s.queue[0];
      DispatchAdvances(c, s);
    } else if m.RunAction? {
      k := m.k;
      var o := ActionEffect(c, s, k);
      ActionAdvances(c, s, DoAction(c, s, k), k, o);
    } else if m.Decrement? {
      k := m.k;
      DecrementSafe(c, s, k);
      var w := c.graph.edges[s.pc[k].rest[0]].waiter;
      DecrementEffect(c, s, k, w);
      DecrementAdvances(c, s, DoDecrement(c, s, k), k, w);
    } else {
      k := m.k;
      StepEffect(c, s, m);
      StepAdvances(c, s, Do(c, s, m), m);
    }
  }

  lemma DispatchAdvances<V>(c: Config<V>, s: State<V>)
    requires s.pc.Keys == c.graph.sizes.Keys && QueueInv(s) && Enabled(c, s, Dispatch)
    ensures var t := Do(c, s, Dispatch);
      Advanced(c.graph, s.pc, t.pc, s.queue[0]) && t.closed == s.closed && t.returned == s.returned
  {
  }

  lemma ActionAdvances<V>(c: Config<V>, s: State<V>, t: State<V>, k: Key, o: Outcome)
    requires s.pc.Keys == c.graph.sizes.Keys && ActionDone(s, t, k, o) && s.pc[k].next < c.graph.sizes[k]
    ensures Advanced(c.graph, s.pc, t.pc, k)
  {
  }

  lemma DecrementAdvances<V>(c: Config<V>, s: State<V>, t: State<V>, k: Key, w: Key)
    requires s.pc.Keys == c.graph.sizes.Keys && Decremented(s, t, k, w)
    ensures Advanced(c.graph, s.pc, t.pc, k)
  {
  }

  lemma StepAdvances<V>(c: Config<V>, s: State<V>, t: State<V>, m: Move)
    requires s.pc.Keys == c.graph.sizes.Keys && Enabled(c, s, m) && IsStep(m)
    requires Stepped(s, t, m.k, NextPc(c, s, m))
    ensures Advanced(c.graph, s.pc, t.pc, m.k)
  {
  }

  lemma TokensShrink<V>(c: Config<V>, s: State<V>, t: State<V>, k: Key)
    requires Advanced(c.graph, s.pc, t.pc, k)
    ensures |Tokens(c, t)| < |Tokens(c, s)|
  {
    var gone := (k, MovesLeft(c.graph, k, t.pc[k]));
    assert gone in Tokens(c, s) && gone !in Tokens(c, t);
    SubsetSmaller(Tokens(c, t), Tokens(c, s), gone);
  }

  lemma SubsetSmaller<T>(a: set<T>, b: set<T>, x: T)
    requires a <= b && x in b && x !in a
    ensures |a| < |b|
  {
    SubsetNotLarger(a, b - {x});
  }

  lemma {:induction false} SubsetNotLarger<T>(a: set<T>, b: set<T>)
    requires a <= b
    ensures |a| <= |b|
  {
    if a != {} {
      var x :| x in a;
      SubsetNotLarger(a - {x}, b - {x});
    }
  }

  /** On an acyclic plan some move is enabled until applyInternal has returned. */
  lemma NeverStuck<V>(c: Config<V>, s: State<V>, rank: map<Key, nat>) returns (m: Move)
    requires Inv(c, s) && Ranked(c.graph, rank) && !s.returned
    ensures Enabled(c, s, m)
  {
    if k :| k in s.pc && s.pc[k] != Finished {
      m := Unfinished(c, s, rank, k);
    } else if s.closed {
      HeadQueued(s);
      m := Return;
    } else {
      m := Close;
    }
  }

  lemma HeadQueued<V>(s: State<V>)
    requires QueueInv(s)
    ensures s.queue != [] ==> s.queue[0] in s.pc && s.pc[s.queue[0]] == Queued
  {
  }

  lemma {:induction false} Unfinished<V>(c: Config<V>, s: State<V>, rank: map<Key, nat>, k: Key) returns (m: Move)
    requires Inv(c, s) && Ranked(c.graph, rank) && k in s.pc && s.pc[k] != Finished
    ensures Enabled(c, s, m)
    decreases rank[k]
  {
    if s.pc[k] == Idle {
      var e := IdleWaits(c, s, k);
      m := Unfinished(c, s, rank, c.graph.edges[e].needed);
    } else {
      m := OwnMove(c, s, k);
    }
  }

  /** An idle node waits for one that is not finished. */
  lemma IdleWaits<V>(c: Config<V>, s: State<V>, k: Key) returns (e: nat)
    requires Inv(c, s) && k in s.pc && s.pc[k] == Idle
    ensures e < |c.graph.edges| && c.graph.edges[e].waiter == k && c.graph.edges[e].needed in s.pc
    ensures s.pc[c.graph.edges[e].needed] != Finished
  {
    e :| e in Pending(c, s, k);
  }

  /** A node that is ready or running can go on, or another one is dispatched. */
  lemma OwnMove<V>(c: Config<V>, s: State<V>, k: Key) returns (m: Move)
    requires Inv(c, s) && k in s.pc && s.pc[k] != Finished && s.pc[k] != Idle
    ensures Enabled(c, s, m)
  {
    match s.pc[k]
    case Queued =>
      assert s.queue[0] in s.queue;
      m := Dispatch;
    case Started => m := ReadError(k);
    case Running(i, _) => m := if i < c.graph.sizes[k] then RunAction(k) else LeaveActions(k);
    case MarkSelf => m := StoreOwnError(k);
    case Notify(rest, _) =>
      if rest == [] {
        m := Finish(k);
      } else {
        DecrementSafe(c, s, k);
        m := Decrement(k);
      }
    case MarkNext(rest) =>
      assert rest[0] in rest;
      m := MarkWaiter(k);
  }

  lemma {:induction false} ScheduleBurnsFuel<V(!new)>(c: Config<V>, s: State<V>, moves: seq<Move>, t: State<V>)
    requires Inv(c, s) && Leads(c, s, moves, t)
    ensures |moves| + Fuel(c, t) <= Fuel(c, s)
    decreases |moves|
  {
    if moves != [] {
      MoveBurnsFuel(c, s, moves[0]);
      StepInv(c, s, moves[0]);
      ScheduleBurnsFuel(c, Do(c, s, moves[0]), moves[1..], t);
    }
  }

  /** Taking any enabled move again and again gets to the return. */
  lemma {:induction false} RunToReturn<V(!new)>(c: Config<V>, s: State<V>, rank: map<Key, nat>)
    returns (moves: seq<Move>, t: State<V>)
    requires Inv(c, s) && Ranked(c.graph, rank)
    ensures Leads(c, s, moves, t) && t.returned
    decreases Fuel(c, s)
  {
    if s.returned {
      moves, t := [], s;
    } else {
      var m := NeverStuck(c, s, rank);
      StepInv(c, s, m);
      MoveBurnsFuel(c, s, m);
      moves, t := RunToReturn(c, Do(c, s, m), rank);
      moves := [m] + moves;
    }
  }

  /** Each dispatched node comes after its Before nodes in the order of dispatch. */
  ghost predicate Ordered(g: Graph, q: seq<Key>) {
    forall j, e :: 0 <= j < |q| && e in g.Before(q[j]) ==> g.edges[e].needed in q[..j]
  }

  ghost predicate OrderInv<V>(c: Config<V>, s: State<V>) {
    Ordered(c.graph, s.dispatched)
  }

  lemma OrderStep<V>(c: Config<V>, s: State<V>, m: Move)
    requires Inv(c, s) && OrderInv(c, s) && Enabled(c, s, m)
    ensures OrderInv(c, Do(c, s, m))
  {
    if m.Dispatch? {
      var k := s.queue[0];
      assert k in s.queue;
      forall e | e in c.graph.Before(k) ensures c.graph.edges[e].needed in s.dispatched {
        ReadyAfterNeeded(c, s, k, e);
      }
      OrderExtended(c.graph, s.dispatched, k);
    } else {
      DispatchedKept(c, s, m);
    }
  }

  lemma DispatchedKept<V>(c: Config<V>, s: State<V>, m: Move)
    requires Enabled(c, s, m) && !m.Dispatch?
    ensures Do(c, s, m).dispatched == s.dispatched
  {
  }

  lemma ReadyAfterNeeded<V>(c: Config<V>, s: State<V>, k: Key, e: nat)
    requires ShapeInv(c, s) && DegreeInv(c, s) && DispatchInv(s)
    requires k in s.pc && s.pc[k] == Queued && e in c.graph.Before(k)
    ensures c.graph.edges[e].needed in s.dispatched
  {
    NothingPending(c, s, k);
    assert e !in Pending(c, s, k);
  }

  lemma OrderExtended(g: Graph, q: seq<Key>, k: Key)
    requires Ordered(g, q)
    requires forall e :: e in g.Before(k) ==> g.edges[e].needed in q
    ensures Ordered(g, q + [k])
  {
    var q' := q + [k];
    forall j, e | 0 <= j < |q'| && e in g.Before(q'[j]) ensures g.edges[e].needed in q'[..j] {
      if j < |q| {
        assert q'[..j] == q[..j];
      } else {
        assert q'[..j] == q;
      }
    }
  }

  lemma {:induction false} LeadsOrder<V(!new)>(c: Config<V>, s: State<V>, moves: seq<Move>, t: State<V>)
    requires Inv(c, s) && OrderInv(c, s) && Leads(c, s, moves, t)
    ensures OrderInv(c, t)
    decreases |moves|
  {
    if moves != [] {
      OrderStep(c, s, moves[0]);
      StepInv(c, s, moves[0]);
      LeadsOrder(c, Do(c, s, moves[0]), moves[1..], t);
    }
  }

  function IndexIn(q: seq<Key>, k: Key): (i: nat)
    requires k in q
    ensures i < |q| && q[i] == k
  {
    if q[0] == k then 0 else 1 + IndexIn(q[1..], k)
  }

  /** A run that returns has found an order of the nodes that the edges respect. */
  lemma ReturnedIsAcyclic<V>(c: Config<V>, s: State<V>)
    requires Inv(c, s) && OrderInv(c, s) && s.returned
    ensures Acyclic(c.graph)
  {
    forall k | k in c.graph.sizes ensures k in s.dispatched {
      assert s.pc[k] == Finished;
    }
    var rank := map k | k in c.graph.sizes :: IndexIn(s.dispatched, k);
    forall e | 0 <= e < |c.graph.edges|
      ensures rank[c.graph.edges[e].needed] < rank[c.graph.edges[e].waiter]
    {
      var w, n := c.graph.edges[e].waiter, c.graph.edges[e].needed;
      assert e in c.graph.Before(s.dispatched[rank[w]]);
      assert n in s.dispatched[..rank[w]];
    }
    assert Ranked(c.graph, rank);
  }

  /**
   applyInternal returns exactly on the acyclic plans: on these no schedule runs forever or gets
   stuck before the return, on any other plan no schedule ever returns.
   */
  lemma ReturnsIffAcyclic<V(!new)>(c: Config<V>, s0: State<V>)
    requires Init(c, s0)
    ensures (exists moves, t :: Leads(c, s0, moves, t) && t.returned) <==> Acyclic(c.graph)
    ensures Acyclic(c.graph) ==> forall moves, t {:trigger Leads(c, s0, moves, t)} :: Leads(c, s0, moves, t) ==>
              |moves| <= Fuel(c, s0) && (t.returned || exists m :: Enabled(c, t, m))
  {
    if moves, t :| Leads(c, s0, moves, t) && t.returned {
      ReturnsOnlyIfAcyclic(c, s0, moves, t);
    }
    if Acyclic(c.graph) {
      AcyclicReturns(c, s0);
    }
  }

  lemma ReturnsOnlyIfAcyclic<V(!new)>(c: Config<V>, s0: State<V>, moves: seq<Move>, t: State<V>)
    requires Init(c, s0) && Leads(c, s0, moves, t) && t.returned
    ensures Acyclic(c.graph)
  {
    InitInv(c, s0);
    LeadsInv(c, s0, moves, t);
    LeadsOrder(c, s0, moves, t);
    ReturnedIsAcyclic(c, t);
  }

  lemma AcyclicReturns<V(!new)>(c: Config<V>, s0: State<V>)
    requires Init(c, s0) && Acyclic(c.graph)
    ensures exists moves, t :: Leads(c, s0, moves, t) && t.returned
    ensures forall moves, t {:trigger Leads(c, s0, moves, t)} :: Leads(c, s0, moves, t) ==>
              |moves| <= Fuel(c, s0) && (t.returned || exists m :: Enabled(c, t, m))
  {
    InitInv(c, s0);
    var rank :| Ranked(c.graph, rank);
    var moves0, t0 := RunToReturn(c, s0, rank);
    forall moves, t | Leads(c, s0, moves, t)
      ensures |moves| <= Fuel(c, s0) && (t.returned || exists m :: Enabled(c, t, m))
    {
      ScheduleBurnsFuel(c, s0, moves, t);
      LeadsInv(c, s0, moves, t);
      if !t.returned {
        var m := NeverStuck(c, t, rank);
      }
    }
  }

  /** Each valid plan can be started, from any world. */
  lemma SomeStart<V>(c: Config<V>, world: map<Key, V>) returns (s: State<V>)
    requires c.graph.Valid()
    ensures Init(c, s) && s.world == world
  {
    var keys := c.graph.sizes.Keys;
    var deg := map k | k in keys :: |c.graph.Before(k)|;
    var pc := map k | k in keys :: if deg[k] <= 0 then Queued else Idle;
    var queue := Listed(set k | k in keys && pc[k] == Queued);
    s := State(pc, deg, {}, queue, false, false, false, world, 0, 0, 0, map[], []);
  }

  lemma {:induction false} Listed(keys: set<Key>) returns (q: seq<Key>)
    ensures NoDuplicates(q) && forall k :: k in q <==> k in keys
  {
    if keys == {} {
      q := [];
    } else {
      var k :| k in keys;
      q := Listed(keys - {k});
      q := q + [k];
    }
  }

  /** When applyInternal returns, every action has exactly one outcome, and the counters add up. */
  lemma ReturnedCounts<V(!new)>(c: Config<V>, s: State<V>)
    requires Reachable(c, s) && s.returned
    ensures s.outcomes.Keys == c.graph.AllActions()
    ensures s.success + s.failed + s.skipped == |c.graph.AllActions()|
  {
    ReachableInv(c, s);
    AllActionsDone(c, s);
    OutcomesPartition(s.outcomes);
  }

  lemma AllActionsDone<V>(c: Config<V>, s: State<V>)
    requires s.pc.Keys == c.graph.sizes.Keys && CountInv(c, s) && forall k :: k in s.pc ==> s.pc[k] == Finished
    ensures s.outcomes.Keys == c.graph.AllActions()
  {
  }

  lemma OutcomesPartition(outcomes: map<ActionId, Outcome>)
    ensures |ActionsWith(outcomes, Succeeded)| + |ActionsWith(outcomes, Failed)| + |ActionsWith(outcomes, Skipped)|
         == |outcomes.Keys|
  {
    var a, b, c := ActionsWith(outcomes, Succeeded), ActionsWith(outcomes, Failed), ActionsWith(outcomes, Skipped);
    assert outcomes.Keys == a + b + c;
    assert a !! b && (a + b) !! c;
  }

  /** The value of a uint32 counter incremented n times from zero. */
  function Uint32(n: nat): nat {
    n % 0x1_0000_0000
  }

  /** The integrity check of Done, in the arithmetic of its counters. */
  predicate DonePanics(success: nat, failed: nat, skipped: nat, total: nat) {
    Uint32(Uint32(Uint32(success) + Uint32(failed)) + Uint32(skipped)) != Uint32(total)
  }

  /** Apply runs the plan twice: first with an action function that does nothing, to count the actions. */
  function Noop<V>(): (ActionId, Option<V>) -> (Option<V>, bool) {
    (a, v) => (v, true)
  }

  lemma NoopStep<V>(c: Config<V>, s: State<V>, m: Move)
    requires c.exec == Noop<V>() && Enabled(c, s, m)
    requires s.failed == s.skipped == 0 && s.wasError == {} && NoError(s)
    ensures var t := Do(c, s, m); t.failed == t.skipped == 0 && t.wasError == {} && NoError(t)
  {
  }

  ghost predicate NoError<V>(s: State<V>) {
    forall k :: k in s.pc ==>
      match s.pc[k]
      case Running(_, err) => !err
      case Notify(_, err) => !err
      case MarkSelf => false
      case MarkNext(_) => false
      case _ => true
  }

  lemma {:induction false} LeadsNoop<V(!new)>(c: Config<V>, s: State<V>, moves: seq<Move>, t: State<V>)
    requires c.exec == Noop<V>() && Leads(c, s, moves, t)
    requires s.failed == s.skipped == 0 && s.wasError == {} && NoError(s)
    ensures t.failed == t.skipped == 0
    decreases |moves|
  {
    if moves != [] {
      NoopStep(c, s, moves[0]);
      LeadsNoop(c, Do(c, s, moves[0]), moves[1..], t);
    }
  }

  /** A counting run succeeds with every action of the plan. */
  lemma CountingFindsAll<W(!new)>(c: Config<W>, s: State<W>)
    requires c.exec == Noop<W>() && Reachable(c, s) && s.returned
    ensures s.success == |c.graph.AllActions()|
  {
    ReturnedCounts(c, s);
    var s0: State<W>, moves :| Init(c, s0) && Leads(c, s0, moves, s);
    InitNoError(c, s0);
    LeadsNoop(c, s0, moves, s);
  }

  /** The actions that are run along a schedule, in order. */
  ghost function ActionsRun<V>(c: Config<V>, s: State<V>, moves: seq<Move>): seq<ActionId>
    decreases |moves|
  {
    if moves == [] || !Enabled(c, s, moves[0]) then []
    else RunBy(c, s, moves[0]) + ActionsRun(c, Do(c, s, moves[0]), moves[1..])
  }

  function RunBy<V>(c: Config<V>, s: State<V>, m: Move): seq<ActionId>
    requires Enabled(c, s, m)
  {
    if m.RunAction? && !s.pc[m.k].err then [ActionId(m.k, s.pc[m.k].next)] else []
  }

  /** While nothing has failed, the actions run are exactly those that get an outcome, each once. */
  lemma {:induction false} ActionsRunOnce<V(!new)>(c: Config<V>, s: State<V>, moves: seq<Move>, t: State<V>)
    requires c.exec == Noop<V>() && Inv(c, s) && Leads(c, s, moves, t)
    requires s.failed == s.skipped == 0 && s.wasError == {} && NoError(s)
    ensures var run := ActionsRun(c, s, moves);
      && NoDuplicates(run)
      && forall a :: a in run <==> a in t.outcomes && a !in s.outcomes
    decreases |moves|
  {
    if moves != [] {
      var u := Do(c, s, moves[0]);
      NoopStep(c, s, moves[0]);
      StepInv(c, s, moves[0]);
      ActionsRunOnce(c, u, moves[1..], t);
      NoopOutcomes(c, s, moves[0]);
      var rest := ActionsRun(c, u, moves[1..]);
      OutcomesGrow(c, u, moves[1..], t);
      assert forall a :: a in RunBy(c, s, moves[0]) ==> a !in rest;
    }
  }

  lemma NoopOutcomes<V>(c: Config<V>, s: State<V>, m: Move)
    requires c.exec == Noop<V>() && CountInv(c, s) && Enabled(c, s, m) && NoError(s)
    ensures forall a :: a in Do(c, s, m).outcomes <==> a in s.outcomes || a in RunBy(c, s, m)
    ensures forall a :: a in RunBy(c, s, m) ==> a !in s.outcomes
  {
  }

  lemma {:induction false} OutcomesGrow<V(!new)>(c: Config<V>, s: State<V>, moves: seq<Move>, t: State<V>)
    requires Leads(c, s, moves, t)
    ensures forall a :: a in s.outcomes ==> a in t.outcomes
    decreases |moves|
  {
    if moves != [] {
      OutcomesGrow(c, Do(c, s, moves[0]), moves[1..], t);
    }
  }

  /** A finished run with actions that do nothing runs every action of the plan, each once. */
  lemma NoopRunsAll<V(!new)>(c: Config<V>, s0: State<V>, moves: seq<Move>, s: State<V>)
    requires c.exec == Noop<V>() && Init(c, s0) && Leads(c, s0, moves, s) && s.returned
    ensures NoDuplicates(ActionsRun(c, s0, moves))
    ensures forall a :: a in ActionsRun(c, s0, moves) <==> a in c.graph.AllActions()
  {
    InitInv(c, s0);
    InitNoError(c, s0);
    LeadsInv(c, s0, moves, s);
    ActionsRunOnce(c, s0, moves, s);
    AllActionsDone(c, s);
    assert forall a :: a in s.outcomes <==> a in s.outcomes.Keys;
  }

  lemma InitNoError<V>(c: Config<V>, s: State<V>)
    requires Init(c, s)
    ensures s.failed == s.skipped == 0 && s.wasError == {} && NoError(s)
  {
  }

  /**
   The integrity check of Done never panics: the total found by any counting run of the plan equals,
   as uint32 values, the sum of the counters of any run of the same plan that has returned.
   */
  lemma DoneNeverPanics<V(!new), W(!new)>(c: Config<V>, s: State<V>, counting: Config<W>, n: State<W>)
    requires counting.exec == Noop<W>() && counting.graph == c.graph
    requires Reachable(counting, n) && n.returned
    requires Reachable(c, s) && s.returned
    ensures !DonePanics(s.success, s.failed, s.skipped, n.success)
  {
    ReturnedCounts(c, s);
    CountingFindsAll(counting, n);
    Uint32Sum(s.success, s.failed, s.skipped, n.success);
  }

  lemma Uint32Sum(a: nat, b: nat, c: nat, total: nat)
    requires a + b + c == total
    ensures !DonePanics(a, b, c, total)
  {
  }
}

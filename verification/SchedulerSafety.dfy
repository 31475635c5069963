/**
 What every schedule of the scheduler keeps, on any plan and with or without atomic failure marks.
 */
module SchedulerSafety {
  import opened Prelude
  import opened Scheduler

  /** The node has not yet decremented the waiter of its edge e. */
  ghost predicate Outstanding(p: Pc, e: nat) {
    match p
    case Notify(rest, _) => e in rest
    case MarkNext(rest) => rest != [] && e in rest[1..]
    case Finished => false
    case _ => true
  }

  /** The edges of `waiter.Before` whose needed node has not reported to the waiter. */
  ghost function Pending<V>(c: Config<V>, s: State<V>, waiter: Key): set<nat> {
    set e | e in c.graph.Before(waiter) && c.graph.edges[e].needed in s.pc
            && Outstanding(s.pc[c.graph.edges[e].needed], e)
  }

  /** How many actions of a node with n actions have been dealt with. */
  function Progress(p: Pc, n: nat): nat {
    match p
    case Idle => 0
    case Queued => 0
    case Started => 0
    case Running(i, _) => i
    case _ => n
  }

  ghost predicate ValidRest(g: Graph, k: Key, rest: seq<nat>) {
    && NoDuplicates(rest)
    && forall e :: e in rest ==> e < |g.edges| && g.edges[e].needed == k
  }

  ghost predicate ValidPc(g: Graph, k: Key, p: Pc)
    requires k in g.sizes
  {
    match p
    case Running(i, _) => i <= g.sizes[k]
    case Notify(rest, _) => ValidRest(g, k, rest)
    case MarkNext(rest) => rest != [] && ValidRest(g, k, rest)
    case _ => true
  }

  ghost predicate ShapeInv<V>(c: Config<V>, s: State<V>) {
    && c.graph.Valid()
    && s.pc.Keys == s.deg.Keys == c.graph.sizes.Keys
    && forall k :: k in s.pc ==> ValidPc(c.graph, k, s.pc[k])
  }

  /** The degree of a node counts the Before edges still outstanding, and is positive exactly while it idles. */
  ghost predicate DegreeInv<V>(c: Config<V>, s: State<V>) {
    forall k :: k in s.pc && k in s.deg ==>
      && s.deg[k] == |Pending(c, s, k)|
      && (s.deg[k] > 0 <==> s.pc[k] == Idle)
  }

  ghost predicate QueueInv<V>(s: State<V>) {
    && NoDuplicates(s.queue)
    && forall k :: k in s.queue <==> k in s.pc && s.pc[k] == Queued
  }

  ghost predicate DispatchInv<V>(s: State<V>) {
    && NoDuplicates(s.dispatched)
    && forall k :: k in s.dispatched <==> k in s.pc && s.pc[k] != Idle && s.pc[k] != Queued
  }

  ghost predicate CloseInv<V>(s: State<V>) {
    && !s.panicked
    && (s.closed ==> forall k :: k in s.pc ==> s.pc[k] == Finished)
    && (s.returned ==> s.closed)
  }

  ghost function ActionsWith(outcomes: map<ActionId, Outcome>, o: Outcome): set<ActionId> {
    set a | a in outcomes && outcomes[a] == o
  }

  /** Each counter counts the actions of its outcome, and exactly the actions dealt with have an outcome. */
  ghost predicate CountInv<V>(c: Config<V>, s: State<V>) {
    && s.success == |ActionsWith(s.outcomes, Succeeded)|
    && s.failed == |ActionsWith(s.outcomes, Failed)|
    && s.skipped == |ActionsWith(s.outcomes, Skipped)|
    && forall a :: a in s.outcomes <==>
         a.node in s.pc && a.node in c.graph.sizes && a.index < Progress(s.pc[a.node], c.graph.sizes[a.node])
  }

  ghost predicate Inv<V>(c: Config<V>, s: State<V>) {
    ShapeInv(c, s) && DegreeInv(c, s) && QueueInv(s) && DispatchInv(s) && CloseInv(s) && CountInv(c, s)
  }

  lemma InitInv<V>(c: Config<V>, s: State<V>)
    requires Init(c, s)
    ensures Inv(c, s)
  {
    forall k | k in s.pc ensures Pending(c, s, k) == c.graph.Before(k) {
    }
  }

  /** The goroutine of the node has been started. */
  predicate Dispatched(p: Pc) {
    p != Idle && p != Queued
  }

  /** A move of the goroutine of k that decrements no degree leaves all pending edges as they are. */
  lemma PendingKept<V>(c: Config<V>, s: State<V>, t: State<V>, k: Key)
    requires k in s.pc && k in t.pc && t.pc == s.pc[k := t.pc[k]]
    requires forall e: nat :: e < |c.graph.edges| && c.graph.edges[e].needed == k ==>
               (Outstanding(s.pc[k], e) <==> Outstanding(t.pc[k], e))
    ensures forall w :: Pending(c, t, w) == Pending(c, s, w)
  {
  }

  /** The goroutine of k has moved, without decrementing any degree. */
  ghost predicate Moved<V>(c: Config<V>, s: State<V>, t: State<V>, k: Key) {
    && k in s.pc && k in t.pc && t.pc == s.pc[k := t.pc[k]]
    && Dispatched(s.pc[k]) && s.pc[k] != Finished && Dispatched(t.pc[k])
    && k in c.graph.sizes && ValidPc(c.graph, k, t.pc[k])
    && (forall e: nat :: e < |c.graph.edges| && c.graph.edges[e].needed == k ==>
          (Outstanding(s.pc[k], e) <==> Outstanding(t.pc[k], e)))
    && t.deg == s.deg && t.queue == s.queue && t.dispatched == s.dispatched
    && t.closed == s.closed && t.returned == s.returned && t.panicked == s.panicked
  }

  lemma MovedInv<V>(c: Config<V>, s: State<V>, t: State<V>, k: Key)
    requires ShapeInv(c, s) && DegreeInv(c, s) && QueueInv(s) && DispatchInv(s) && CloseInv(s)
    requires Moved(c, s, t, k)
    ensures ShapeInv(c, t) && DegreeInv(c, t) && QueueInv(t) && DispatchInv(t) && CloseInv(t)
  {
    PendingKept(c, s, t, k);
  }

  lemma CountKept<V>(c: Config<V>, s: State<V>, t: State<V>, k: Key)
    requires CountInv(c, s) && k in s.pc && k in c.graph.sizes
    requires k in t.pc && t.pc == s.pc[k := t.pc[k]]
    requires Progress(t.pc[k], c.graph.sizes[k]) == Progress(s.pc[k], c.graph.sizes[k])
    requires t.success == s.success && t.failed == s.failed && t.skipped == s.skipped
    requires t.outcomes == s.outcomes
    ensures CountInv(c, t)
  {
  }

  lemma DispatchStep<V>(c: Config<V>, s: State<V>)
    requires Inv(c, s) && Enabled(c, s, Dispatch)
    ensures Inv(c, Do(c, s, Dispatch))
  {
    var t, k := Do(c, s, Dispatch), s.queue[0];
    assert k in s.queue;
    PendingKept(c, s, t, k);
    CountKept(c, s, t, k);
    DispatchQueue(s, t, k);
  }

  lemma DispatchQueue<V>(s: State<V>, t: State<V>, k: Key)
    requires QueueInv(s) && DispatchInv(s)
    requires s.queue != [] && k == s.queue[0] && k in s.pc && t.pc == s.pc[k := Started]
    requires t.queue == s.queue[1..] && t.dispatched == s.dispatched + [k]
    ensures QueueInv(t) && DispatchInv(t)
  {
    assert k in s.queue;
    forall x ensures x in t.queue <==> x in s.queue && x != k {
    }
    forall x ensures x in t.dispatched <==> x in s.dispatched || x == k {
    }
  }

  lemma TailValid(g: Graph, k: Key, rest: seq<nat>)
    requires ValidRest(g, k, rest) && rest != []
    ensures ValidRest(g, k, rest[1..])
    ensures rest[0] in rest && forall x :: x in rest[1..] <==> x in rest && x != rest[0]
  {
  }

  /** The goroutine of k takes a step of its own: nothing is counted, no degree touched. */
  ghost predicate Stepped<V>(s: State<V>, t: State<V>, k: Key, p: Pc) {
    && k in s.pc && t.pc == s.pc[k := p]
    && t.deg == s.deg && t.queue == s.queue && t.dispatched == s.dispatched
    && t.closed == s.closed && t.returned == s.returned && t.panicked == s.panicked
    && t.outcomes == s.outcomes && t.world == s.world
    && t.success == s.success && t.failed == s.failed && t.skipped == s.skipped
  }

  lemma StepEffect<V>(c: Config<V>, s: State<V>, m: Move)
    requires Enabled(c, s, m) && IsStep(m)
    ensures Stepped(s, Do(c, s, m), m.k, NextPc(c, s, m))
  {
  }

  lemma NextPcFits<V>(c: Config<V>, s: State<V>, m: Move)
    requires Enabled(c, s, m) && IsStep(m) && m.k in c.graph.sizes && ValidPc(c.graph, m.k, s.pc[m.k])
    ensures var p, q := s.pc[m.k], NextPc(c, s, m);
      && Dispatched(p) && p != Finished && Dispatched(q) && ValidPc(c.graph, m.k, q)
      && Progress(q, c.graph.sizes[m.k]) == Progress(p, c.graph.sizes[m.k])
      && forall e: nat :: e < |c.graph.edges| && c.graph.edges[e].needed == m.k ==>
           (Outstanding(p, e) <==> Outstanding(q, e))
  {
    if m.MarkWaiter? {
      TailValid(c.graph, m.k, s.pc[m.k].rest);
    }
  }

  lemma WorkerStep<V>(c: Config<V>, s: State<V>, m: Move)
    requires Inv(c, s) && Enabled(c, s, m) && IsStep(m)
    ensures Inv(c, Do(c, s, m))
  {
    StepEffect(c, s, m);
    NextPcFits(c, s, m);
    var t := Do(c, s, m);
    MovedInv(c, s, t, m.k);
    CountKept(c, s, t, m.k);
  }

  /** What running an action changes in the books. */
  ghost predicate ActionDone<V>(s: State<V>, t: State<V>, k: Key, o: Outcome) {
    && k in s.pc && k in t.pc && t.pc == s.pc[k := t.pc[k]]
    && s.pc[k].Running? && t.pc[k].Running? && t.pc[k].next == s.pc[k].next + 1
    && t.outcomes == s.outcomes[ActionId(k, s.pc[k].next) := o]
    && t.success == s.success + (if o == Succeeded then 1 else 0)
    && t.failed == s.failed + (if o == Failed then 1 else 0)
    && t.skipped == s.skipped + (if o == Skipped then 1 else 0)
    && t.deg == s.deg && t.queue == s.queue && t.dispatched == s.dispatched
    && t.closed == s.closed && t.returned == s.returned && t.panicked == s.panicked
  }

  lemma ActionEffect<V>(c: Config<V>, s: State<V>, k: Key) returns (o: Outcome)
    requires Enabled(c, s, RunAction(k))
    ensures ActionDone(s, DoAction(c, s, k), k, o)
  {
    o := if s.pc[k].err then Skipped
         else if c.exec(ActionId(k, s.pc[k].next), Lookup(s.world, k)).1 then Succeeded else Failed;
  }

  lemma ActionMoves<V>(c: Config<V>, s: State<V>, t: State<V>, k: Key, o: Outcome)
    requires k in s.pc && s.pc[k].Running? && k in c.graph.sizes && s.pc[k].next < c.graph.sizes[k]
    requires ActionDone(s, t, k, o)
    ensures Moved(c, s, t, k)
  {
  }

  lemma ActionStep<V>(c: Config<V>, s: State<V>, k: Key)
    requires Inv(c, s) && Enabled(c, s, RunAction(k))
    ensures Inv(c, Do(c, s, RunAction(k)))
  {
    var o := ActionEffect(c, s, k);
    var t := DoAction(c, s, k);
    ActionMoves(c, s, t, k, o);
    MovedInv(c, s, t, k);
    ActionCounts(c, s, t, k, o);
  }

  lemma ActionCounts<V>(c: Config<V>, s: State<V>, t: State<V>, k: Key, o: Outcome)
    requires CountInv(c, s) && k in s.pc && k in c.graph.sizes && s.pc[k].Running? && s.pc[k].next < c.graph.sizes[k]
    requires ActionDone(s, t, k, o)
    ensures CountInv(c, t)
  {
    CountAdded(s.outcomes, ActionId(k, s.pc[k].next), o);
  }

  lemma CountAdded(outcomes: map<ActionId, Outcome>, a: ActionId, o: Outcome)
    requires a !in outcomes
    ensures forall x :: |ActionsWith(outcomes[a := o], x)| == |ActionsWith(outcomes, x)| + if x == o then 1 else 0
  {
    forall x ensures ActionsWith(outcomes[a := o], x) == ActionsWith(outcomes, x) + if x == o then {a} else {} {
    }
  }

  /** The decremented waiter was idle, its degree stays non-negative, and the channel has room for it. */
  lemma DecrementSafe<V>(c: Config<V>, s: State<V>, k: Key)
    requires Inv(c, s) && k in s.pc && s.pc[k].Notify? && s.pc[k].rest != []
    ensures s.pc[k].rest[0] < |c.graph.edges|
    ensures var w := c.graph.edges[s.pc[k].rest[0]].waiter;
      && w in s.pc && w in s.deg && w != k
      && s.pc[w] == Idle && s.deg[w] > 0 && !s.closed && |s.queue| < |c.graph.sizes|
  {
    var e := s.pc[k].rest[0];
    assert e in s.pc[k].rest;
    var w := c.graph.edges[e].waiter;
    assert e in Pending(c, s, w);
    assert Pending(c, s, w) != {};
    QueueBelowCapacity(s.queue, c.graph.sizes.Keys, w);
    assert |c.graph.sizes.Keys| == |c.graph.sizes|;
  }

  lemma {:induction false} QueueBelowCapacity(q: seq<Key>, all: set<Key>, outside: Key)
    requires NoDuplicates(q) && (forall k :: k in q ==> k in all) && outside in all && outside !in q
    ensures |q| < |all|
  {
    if q != [] {
      var rest := q[1..];
      forall k | k in rest ensures k in all - {q[0]} {
      }
      QueueBelowCapacity(rest, all - {q[0]}, outside);
    }
  }

  /** What a decrement of w by k changes, given that w is idle and the channel open. */
  ghost predicate Decremented<V>(s: State<V>, t: State<V>, k: Key, w: Key) {
    && k in s.pc && w in s.pc && k in t.pc && w in t.pc && w in s.deg && k != w
    && s.pc[k].Notify? && s.pc[k].rest != []
    && (t.pc[k] == Notify(s.pc[k].rest[1..], s.pc[k].err) || t.pc[k] == MarkNext(s.pc[k].rest))
    && t.pc == s.pc[k := t.pc[k]][w := t.pc[w]]
    && t.deg == s.deg[w := s.deg[w] - 1]
    && s.pc[w] == Idle && s.deg[w] > 0
    && t.pc[w] == (if s.deg[w] == 1 then Queued else Idle)
    && t.queue == s.queue + (if s.deg[w] == 1 then [w] else [])
    && t.dispatched == s.dispatched && t.outcomes == s.outcomes
    && !s.closed && !t.closed && t.returned == s.returned && !t.panicked
    && t.success == s.success && t.failed == s.failed && t.skipped == s.skipped
  }

  lemma DecrementStep<V>(c: Config<V>, s: State<V>, k: Key)
    requires Inv(c, s) && Enabled(c, s, Decrement(k))
    ensures Inv(c, Do(c, s, Decrement(k)))
  {
    DecrementSafe(c, s, k);
    var t, w := DoDecrement(c, s, k), c.graph.edges[s.pc[k].rest[0]].waiter;
    DecrementEffect(c, s, k, w);
    DecrementDegrees(c, s, t, k, w);
    DecrementQueue(s, t, k, w);
    DecrementCounts(c, s, t, k, w);
  }

  lemma DecrementEffect<V>(c: Config<V>, s: State<V>, k: Key, w: Key)
    requires Enabled(c, s, Decrement(k)) && w == c.graph.edges[s.pc[k].rest[0]].waiter
    requires w != k && s.pc[w] == Idle && s.deg[w] > 0 && !s.closed
    ensures Decremented(s, DoDecrement(c, s, k), k, w)
  {
  }

  lemma DecrementDegrees<V>(c: Config<V>, s: State<V>, t: State<V>, k: Key, w: Key)
    requires ShapeInv(c, s) && DegreeInv(c, s) && Decremented(s, t, k, w)
    requires s.pc[k].rest[0] < |c.graph.edges| && w == c.graph.edges[s.pc[k].rest[0]].waiter
    ensures ShapeInv(c, t) && DegreeInv(c, t)
  {
    DecrementShape(c, s, t, k, w);
    forall x | x in t.pc && x in t.deg
      ensures t.deg[x] == |Pending(c, t, x)| && (t.deg[x] > 0 <==> t.pc[x] == Idle) {
      DecrementDegree(c, s, t, k, w, x);
    }
  }

  lemma DecrementDegree<V>(c: Config<V>, s: State<V>, t: State<V>, k: Key, w: Key, x: Key)
    requires c.graph.Valid() && Decremented(s, t, k, w) && ValidRest(c.graph, k, s.pc[k].rest)
    requires s.pc[k].rest[0] < |c.graph.edges| && w == c.graph.edges[s.pc[k].rest[0]].waiter
    requires x in s.pc && x in s.deg && x in t.deg && x in t.pc
    requires s.deg[x] == |Pending(c, s, x)| && (s.deg[x] > 0 <==> s.pc[x] == Idle)
    ensures t.deg[x] == |Pending(c, t, x)| && (t.deg[x] > 0 <==> t.pc[x] == Idle)
  {
    PendingDecremented(c, s, t, k, w, x);
  }

  lemma DecrementShape<V>(c: Config<V>, s: State<V>, t: State<V>, k: Key, w: Key)
    requires ShapeInv(c, s) && Decremented(s, t, k, w)
    ensures ShapeInv(c, t)
  {
  }

  lemma PendingDecremented<V>(c: Config<V>, s: State<V>, t: State<V>, k: Key, w: Key, x: Key)
    requires c.graph.Valid() && Decremented(s, t, k, w) && ValidRest(c.graph, k, s.pc[k].rest)
    requires s.pc[k].rest[0] < |c.graph.edges| && w == c.graph.edges[s.pc[k].rest[0]].waiter
    ensures s.pc[k].rest[0] in Pending(c, s, w)
    ensures Pending(c, t, x) == if x == w then Pending(c, s, x) - {s.pc[k].rest[0]} else Pending(c, s, x)
  {
  }

  lemma DecrementQueue<V>(s: State<V>, t: State<V>, k: Key, w: Key)
    requires QueueInv(s) && DispatchInv(s) && CloseInv(s)
    requires Decremented(s, t, k, w)
    ensures QueueInv(t) && DispatchInv(t) && CloseInv(t)
  {
  }

  lemma DecrementCounts<V>(c: Config<V>, s: State<V>, t: State<V>, k: Key, w: Key)
    requires CountInv(c, s) && Decremented(s, t, k, w)
    ensures CountInv(c, t)
  {
  }

  lemma StepInv<V>(c: Config<V>, s: State<V>, m: Move)
    requires Inv(c, s) && Enabled(c, s, m)
    ensures Inv(c, Do(c, s, m))
  {
    match m
    case Dispatch => DispatchStep(c, s);
    case RunAction(k) => ActionStep(c, s, k);
    case Decrement(k) => DecrementStep(c, s, k);
    case Close =>
    case Return =>
    case _ => WorkerStep(c, s, m);
  }

  lemma {:induction false} LeadsInv<V(!new)>(c: Config<V>, s: State<V>, moves: seq<Move>, t: State<V>)
    requires Inv(c, s) && Leads(c, s, moves, t)
    ensures Inv(c, t)
    decreases |moves|
  {
    if moves != [] {
      StepInv(c, s, moves[0]);
      LeadsInv(c, Do(c, s, moves[0]), moves[1..], t);
    }
  }

  lemma ReachableInv<V(!new)>(c: Config<V>, s: State<V>)
    requires Reachable(c, s)
    ensures Inv(c, s)
  {
    var s0: State<V>, moves :| Init(c, s0) && Leads(c, s0, moves, s);
    InitInv(c, s0);
    LeadsInv(c, s0, moves, s);
  }

  /**
   Safety of every schedule of every plan: nothing panics, every degree stays non-negative, a send
   on the channel never blocks and never meets a closed channel, and a node is dispatched at most
   once, after each of its Before nodes has got through its own list of actions.
   */
  lemma EveryScheduleIsSafe<V(!new)>(c: Config<V>, s: State<V>)
    requires Reachable(c, s)
    ensures !s.panicked
    ensures forall k :: k in s.deg ==> s.deg[k] >= 0
    ensures forall k :: k in s.pc && s.pc[k].Notify? && s.pc[k].rest != [] ==> Enabled(c, s, Decrement(k)) && !s.closed
    ensures NoDuplicates(s.dispatched)
    ensures forall k, e :: k in s.dispatched && e in c.graph.Before(k) ==>
              && c.graph.edges[e].needed in s.pc && c.graph.edges[e].needed in s.dispatched
              && var p := s.pc[c.graph.edges[e].needed]; p.Notify? || p.MarkNext? || p.Finished?
  {
    ReachableInv(c, s);
    forall k | k in s.pc && s.pc[k].Notify? && s.pc[k].rest != [] ensures Enabled(c, s, Decrement(k)) && !s.closed {
      DecrementSafe(c, s, k);
    }
    forall k, e | k in s.dispatched && e in c.graph.Before(k)
      ensures c.graph.edges[e].needed in s.pc && c.graph.edges[e].needed in s.dispatched
      ensures var p := s.pc[c.graph.edges[e].needed]; p.Notify? || p.MarkNext? || p.Finished?
    {
      BeforeNodeDone(c, s, k, e);
    }
  }

  lemma BeforeNodeDone<V>(c: Config<V>, s: State<V>, k: Key, e: nat)
    requires ShapeInv(c, s) && DegreeInv(c, s) && DispatchInv(s)
    requires k in s.dispatched && e in c.graph.Before(k)
    ensures c.graph.edges[e].needed in s.pc && c.graph.edges[e].needed in s.dispatched
    ensures var p := s.pc[c.graph.edges[e].needed]; p.Notify? || p.MarkNext? || p.Finished?
  {
    NothingPending(c, s, k);
    assert e !in Pending(c, s, k);
  }

  lemma NothingPending<V>(c: Config<V>, s: State<V>, k: Key)
    requires ShapeInv(c, s) && DegreeInv(c, s) && k in s.pc && s.pc[k] != Idle
    ensures Pending(c, s, k) == {}
  {
  }
}

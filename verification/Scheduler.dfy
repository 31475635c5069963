/**
 The parallel action plan scheduler.

 `Plan.applyInternal` starts one goroutine per plan node. The goroutines share the maps `deg` and
 `wasError` under a mutex and feed a bounded channel with the nodes that become ready. The model is
 a transition system whose moves are the critical sections of that code: a schedule is a sequence
 of moves, and any enabled move may come next.
 */
module Scheduler {
  import opened Prelude

  /** One edge of the action graph: `needed` is in `waiter.Before`, `waiter` is in `needed.BeforeRev`. */
  datatype Edge = Edge(waiter: Key, needed: Key)

  /** The action with the given position in the list of a node. */
  datatype ActionId = ActionId(node: Key, index: nat)

  /** A plan, as far as scheduling goes: how many actions each node has, and the edges. */
  datatype Graph = Graph(sizes: map<Key, nat>, edges: seq<Edge>) {
    ghost predicate Valid() {
      forall e :: 0 <= e < |edges| ==> edges[e].waiter in sizes && edges[e].needed in sizes
    }

    /** The entries of `waiter.Before`, by edge number. */
    ghost function Before(waiter: Key): set<nat> {
      set e: nat | e < |edges| && edges[e].waiter == waiter
    }

    /** The entries of `needed.BeforeRev`, by edge number, in the order they were added. */
    function BeforeRev(needed: Key): seq<nat> {
      BeforeRevUpTo(needed, |edges|)
    }

    function BeforeRevUpTo(needed: Key, n: nat): (r: seq<nat>)
      requires n <= |edges|
      ensures forall e: nat :: e in r <==> e < n && edges[e].needed == needed
      ensures forall i, j :: 0 <= i < j < |r| ==> r[i] != r[j]
    {
      if n == 0 then []
      else BeforeRevUpTo(needed, n - 1) + (if edges[n - 1].needed == needed then [n - 1] else [])
    }

    ghost function AllActions(): set<ActionId> {
      set k, i: nat | k in sizes && i < sizes[k] :: ActionId(k, i)
    }
  }

  /** What a node, or the goroutine running it, does next. */
  datatype Pc =
    | Idle                              // not ready: its degree is still positive
    | Queued                            // its key is in the channel
    | Started                           // its goroutine runs, wasError not read yet
    | Running(next: nat, err: bool)     // about to run its next action; err says foundErr != nil
    | MarkSelf                          // about to store its own wasError entry
    | Notify(rest: seq<nat>, err: bool) // about to decrement the degree of the next waiter
    | MarkNext(rest: seq<nat>)          // decremented the waiter of rest[0], about to mark it failed
    | Finished                          // wg.Done() called

  /** The variables shared by the goroutines, the state of each of them, and what has happened so far. */
  datatype State<V> = State(
    pc: map<Key, Pc>,
    deg: map<Key, int>,
    wasError: set<Key>,
    queue: seq<Key>,
    closed: bool,            // close(queue) done
    returned: bool,          // the dispatching loop has ended, applyInternal returns
    panicked: bool,          // negative degree, or a send on the closed channel
    world: map<Key, V>,      // what the actions change
    success: nat, failed: nat, skipped: nat,
    outcomes: map<ActionId, Outcome>, // what became of the actions dealt with
    dispatched: seq<Key>     // nodes in the order their goroutines were started
  )

  datatype Outcome = Succeeded | Failed | Skipped

  /**
   How actions run. `exec` maps an action and the entry of its node in the world to the new entry
   and whether the action succeeded. With `atomicMark`, a waiter is decremented, enqueued and marked
   failed in one critical section; without, the mark is a critical section of its own, as coded.
   */
  datatype Config<!V> = Config(graph: Graph, exec: (ActionId, Option<V>) -> (Option<V>, bool), atomicMark: bool)

  datatype Move =
    | Dispatch
    | ReadError(k: Key)
    | RunAction(k: Key)
    | LeaveActions(k: Key)
    | StoreOwnError(k: Key)
    | Decrement(k: Key)
    | MarkWaiter(k: Key)
    | Finish(k: Key)
    | Close
    | Return

  /** The start of applyInternal: degrees set, the ready nodes in the channel in map iteration order. */
  ghost predicate Init<V>(c: Config<V>, s: State<V>) {
    && c.graph.Valid()
    && s.pc.Keys == s.deg.Keys == c.graph.sizes.Keys
    && (forall k :: k in s.deg ==> s.deg[k] == |c.graph.Before(k)|)
    && (forall k :: k in s.pc ==> s.pc[k] == if s.deg[k] <= 0 then Queued else Idle)
    && (forall k :: k in s.queue <==> k in s.pc && s.pc[k] == Queued)
    && NoDuplicates(s.queue)
    && s.wasError == {} && !s.closed && !s.returned && !s.panicked
    && s.success == s.failed == s.skipped == 0
    && s.outcomes == map[]
    && s.dispatched == []
  }

  ghost predicate NoDuplicates<T>(q: seq<T>) {
    forall i, j :: 0 <= i < j < |q| ==> q[i] != q[j]
  }

  /** Whether the goroutine concerned can take the move: it is there, and it is not blocked. */
  predicate Enabled<V>(c: Config<V>, s: State<V>, m: Move) {
    !s.panicked &&
    match m
    case Dispatch => !s.returned && s.queue != [] && s.queue[0] in s.pc
    case ReadError(k) => k in s.pc && s.pc[k].Started?
    case RunAction(k) => k in s.pc && s.pc[k].Running? && k in c.graph.sizes && s.pc[k].next < c.graph.sizes[k]
    case LeaveActions(k) => k in s.pc && s.pc[k].Running? && k in c.graph.sizes && s.pc[k].next >= c.graph.sizes[k]
    case StoreOwnError(k) => k in s.pc && s.pc[k].MarkSelf?
    case Decrement(k) =>
      && k in s.pc && s.pc[k].Notify? && s.pc[k].rest != [] && s.pc[k].rest[0] < |c.graph.edges|
      && var w := c.graph.edges[s.pc[k].rest[0]].waiter;
      && w in s.deg && w in s.pc
      && !SendBlocks(c, s, w)
    case MarkWaiter(k) => k in s.pc && s.pc[k].MarkNext? && s.pc[k].rest != [] && s.pc[k].rest[0] < |c.graph.edges|
    case Finish(k) => k in s.pc && s.pc[k].Notify? && s.pc[k].rest == []
    case Close => !s.closed && forall k | k in s.pc :: s.pc[k] == Finished
    case Return => s.closed && !s.returned && s.queue == []
  }

  /** Decrementing w would send its key into a channel that is full. */
  predicate SendBlocks<V>(c: Config<V>, s: State<V>, w: Key)
    requires w in s.deg
  {
    s.deg[w] == 1 && !s.closed && |s.queue| >= |c.graph.sizes|
  }

  function Do<V>(c: Config<V>, s: State<V>, m: Move): State<V>
    requires Enabled(c, s, m)
  {
    match m
    case Dispatch =>
      var k := s.queue[0];
      s.(queue := s.queue[1..], pc := s.pc[k := Started], dispatched := s.dispatched + [k])
    case RunAction(k) => DoAction(c, s, k)
    case Decrement(k) => DoDecrement(c, s, k)
    case ReadError(k) => s.(pc := s.pc[k := NextPc(c, s, m)])
    case LeaveActions(k) => s.(pc := s.pc[k := NextPc(c, s, m)])
    case StoreOwnError(k) => s.(pc := s.pc[k := NextPc(c, s, m)], wasError := s.wasError + {k})
    case MarkWaiter(k) =>
      s.(pc := s.pc[k := NextPc(c, s, m)], wasError := s.wasError + {c.graph.edges[s.pc[k].rest[0]].waiter})
    case Finish(k) => s.(pc := s.pc[k := NextPc(c, s, m)])
    case Close => s.(closed := true)
    case Return => s.(returned := true)
  }

  /** The moves of a goroutine other than running an action and decrementing a waiter. */
  predicate IsStep(m: Move) {
    m.ReadError? || m.LeaveActions? || m.StoreOwnError? || m.MarkWaiter? || m.Finish?
  }

  function NextPc<V>(c: Config<V>, s: State<V>, m: Move): Pc
    requires Enabled(c, s, m) && IsStep(m)
  {
    match m
    case ReadError(k) => Running(0, k in s.wasError)
    case LeaveActions(k) => if s.pc[k].err then MarkSelf else Notify(c.graph.BeforeRev(k), false)
    case StoreOwnError(k) => Notify(c.graph.BeforeRev(k), true)
    case MarkWaiter(k) => Notify(s.pc[k].rest[1..], true)
    case Finish(k) => Finished
  }

  /** One round of the loop over node.Actions: skip the action after an error, run it otherwise. */
  function DoAction<V>(c: Config<V>, s: State<V>, k: Key): State<V>
    requires Enabled(c, s, RunAction(k))
  {
    if s.pc[k].err then
      Record(s, k, Skipped, s.world)
    else
      var (v, ok) := c.exec(ActionId(k, s.pc[k].next), Lookup(s.world, k));
      Record(s, k, if ok then Succeeded else Failed, Store(s.world, k, v))
  }

  function Record<V>(s: State<V>, k: Key, o: Outcome, world: map<Key, V>): State<V>
    requires k in s.pc && s.pc[k].Running?
  {
    s.(pc := s.pc[k := Running(s.pc[k].next + 1, o != Succeeded)],
       world := world,
       outcomes := s.outcomes[ActionId(k, s.pc[k].next) := o],
       success := s.success + (if o == Succeeded then 1 else 0),
       failed := s.failed + (if o == Failed then 1 else 0),
       skipped := s.skipped + (if o == Skipped then 1 else 0))
  }

  /** One round of the loop over BeforeRev: decrement, panic below zero, enqueue at zero, mark failed. */
  function DoDecrement<V>(c: Config<V>, s: State<V>, k: Key): State<V>
    requires Enabled(c, s, Decrement(k))
  {
    var rest, err := s.pc[k].rest, s.pc[k].err;
    var w := c.graph.edges[rest[0]].waiter;
    var d := s.deg[w] - 1;
    var pc := s.pc[k := if err && !c.atomicMark then MarkNext(rest) else Notify(rest[1..], err)];
    s.(deg := s.deg[w := d],
       pc := if d == 0 then pc[w := Queued] else pc,
       queue := s.queue + (if d == 0 then [w] else []),
       wasError := s.wasError + (if err && c.atomicMark then {w} else {}),
       panicked := d < 0 || (d == 0 && s.closed))
  }

  /** The schedule `moves` leads from s to t. */
  ghost predicate Leads<V(!new)>(c: Config<V>, s: State<V>, moves: seq<Move>, t: State<V>)
    decreases |moves|
  {
    if moves == [] then s == t
    else Enabled(c, s, moves[0]) && Leads(c, Do(c, s, moves[0]), moves[1..], t)
  }

  ghost predicate Reachable<V(!new)>(c: Config<V>, s: State<V>) {
    exists s0: State<V>, moves :: Init(c, s0) && Leads(c, s0, moves, s)
  }
}

/**
 What holds of every run that returns, whether the failure mark of a waiter is part of the decrement or,
 as coded, stored afterwards: which nodes run may then depend on the schedule, but not what running does.
 */
module SchedulerFineGrain {
  import opened Prelude
  import opened Scheduler
  import opened SchedulerSafety
  import opened SchedulerLiveness
  import opened SchedulerDeterminism

  /** What becomes of an action when its node runs its list on its own. */
  ghost function AloneOutcome<V>(c: Config<V>, w0: map<Key, V>, a: ActionId): Outcome {
    var (v, err) := Alone(c, a.node, a.index, Lookup(w0, a.node));
    if err then Skipped else if c.exec(a, v).1 then Succeeded else Failed
  }

  /** The first n actions of the node have been skipped. */
  ghost predicate Skips<V>(w0: map<Key, V>, k: Key, n: nat, v: Option<V>, outcomes: map<ActionId, Outcome>) {
    v == Lookup(w0, k) && forall i: nat {:trigger Lookup(outcomes, ActionId(k, i))} :: i < n ==> Lookup(outcomes, ActionId(k, i)) == Some(Skipped)
  }

  /** The first n actions of the node have been run one after the other, up to the first failure. */
  ghost predicate Runs<V>(c: Config<V>, w0: map<Key, V>, k: Key, n: nat, v: Option<V>, outcomes: map<ActionId, Outcome>) {
    && v == Alone(c, k, n, Lookup(w0, k)).0
    && forall i: nat {:trigger Lookup(outcomes, ActionId(k, i))} :: i < n ==> Lookup(outcomes, ActionId(k, i)) == Some(AloneOutcome(c, w0, ActionId(k, i)))
  }

  ghost predicate SkipsOrRuns<V>(c: Config<V>, w0: map<Key, V>, p: Pc, k: Key, v: Option<V>, outcomes: map<ActionId, Outcome>)
    requires k in c.graph.sizes
  {
    var n := Progress(p, c.graph.sizes[k]);
    match p
    case Running(_, err) =>
      (err && Skips(w0, k, n, v, outcomes)) || (err == Alone(c, k, n, Lookup(w0, k)).1 && Runs(c, w0, k, n, v, outcomes))
    case _ => Skips(w0, k, n, v, outcomes) || Runs(c, w0, k, n, v, outcomes)
  }

  ghost predicate NodeFits<V>(c: Config<V>, w0: map<Key, V>, s: State<V>, k: Key)
    requires k in s.pc && k in c.graph.sizes
  {
    SkipsOrRuns(c, w0, s.pc[k], k, Lookup(s.world, k), s.outcomes)
  }

  ghost predicate AllFit<V>(c: Config<V>, w0: map<Key, V>, s: State<V>) {
    && (forall k {:trigger NodeFits(c, w0, s, k)} :: k in s.pc && k in c.graph.sizes ==> NodeFits(c, w0, s, k))
    && (forall k :: k !in s.pc ==> Lookup(s.world, k) == Lookup(w0, k))
  }

  /** Steps of a goroutine other than running an action. */
  lemma StepSkipsOrRuns<V>(c: Config<V>, w0: map<Key, V>, s: State<V>, m: Move, v: Option<V>)
    requires Enabled(c, s, m) && IsStep(m) && m.k in c.graph.sizes && ValidPc(c.graph, m.k, s.pc[m.k])
    requires SkipsOrRuns(c, w0, s.pc[m.k], m.k, v, s.outcomes)
    ensures SkipsOrRuns(c, w0, NextPc(c, s, m), m.k, v, s.outcomes)
  {
  }

  lemma ListNext(f: nat -> Outcome, k: Key, i: nat, outcomes: map<ActionId, Outcome>)
    requires forall j: nat {:trigger ActionId(k, j)} :: j < i ==> Lookup(outcomes, ActionId(k, j)) == Some(f(j))
    ensures forall j: nat {:trigger ActionId(k, j)} :: j < i + 1 ==> Lookup(outcomes[ActionId(k, i) := f(i)], ActionId(k, j)) == Some(f(j))
  {
  }

  lemma SkipsNext<V>(w0: map<Key, V>, k: Key, i: nat, v: Option<V>, outcomes: map<ActionId, Outcome>)
    requires Skips(w0, k, i, v, outcomes)
    ensures Skips(w0, k, i + 1, v, outcomes[ActionId(k, i) := Skipped])
  {
    ListNext((j: nat) => Skipped, k, i, outcomes);
  }

  lemma RunsNext<V>(c: Config<V>, w0: map<Key, V>, k: Key, i: nat, v: Option<V>, v': Option<V>, outcomes: map<ActionId, Outcome>)
    requires Runs(c, w0, k, i, v, outcomes) && v' == Alone(c, k, i + 1, Lookup(w0, k)).0
    ensures Runs(c, w0, k, i + 1, v', outcomes[ActionId(k, i) := AloneOutcome(c, w0, ActionId(k, i))])
  {
    ListNext((j: nat) => AloneOutcome(c, w0, ActionId(k, j)), k, i, outcomes);
  }

  lemma ActionFits<V>(c: Config<V>, w0: map<Key, V>, s: State<V>, k: Key)
    requires Enabled(c, s, RunAction(k)) && NodeFits(c, w0, s, k)
    ensures var t := DoAction(c, s, k); NodeFits(c, w0, t, k)
  {
    var i, v, t := s.pc[k].next, Lookup(s.world, k), DoAction(c, s, k);
    ActionWrites(c, s, k);
    if s.pc[k].err && Skips(w0, k, i, v, s.outcomes) {
      SkipsNext(w0, k, i, v, s.outcomes);
    } else {
      RunsOn(c, w0, k, i, v, s.outcomes);
    }
  }

  /** The next action of a node that has run so far is run, or skipped after a failure of its own. */
  lemma RunsOn<V>(c: Config<V>, w0: map<Key, V>, k: Key, i: nat, v: Option<V>, outcomes: map<ActionId, Outcome>)
    requires Runs(c, w0, k, i, v, outcomes)
    ensures var a, err := ActionId(k, i), Alone(c, k, i, Lookup(w0, k)).1;
      var (v', ok) := c.exec(a, v);
      if err then Alone(c, k, i + 1, Lookup(w0, k)).1 && Runs(c, w0, k, i + 1, v, outcomes[a := Skipped])
      else Alone(c, k, i + 1, Lookup(w0, k)).1 == !ok
           && Runs(c, w0, k, i + 1, v', outcomes[a := if ok then Succeeded else Failed])
  {
    AloneNext(c, k, i, Lookup(w0, k));
    RunsNext(c, w0, k, i, v, Alone(c, k, i + 1, Lookup(w0, k)).0, outcomes);
  }

  /** Nothing has happened at the node, except that it may have become ready. */
  ghost predicate SameNode<V>(s: State<V>, t: State<V>, k: Key) {
    && k in s.pc && k in t.pc
    && (t.pc[k] == s.pc[k] || (NotYetRead(s.pc[k]) && NotYetRead(t.pc[k])))
    && Lookup(t.world, k) == Lookup(s.world, k)
    && forall a: ActionId {:trigger Lookup(t.outcomes, a)} :: a.node == k ==> Lookup(t.outcomes, a) == Lookup(s.outcomes, a)
  }

  lemma SameFits<V>(c: Config<V>, w0: map<Key, V>, s: State<V>, t: State<V>, k: Key)
    requires SameNode(s, t, k) && k in c.graph.sizes && NodeFits(c, w0, s, k)
    ensures NodeFits(c, w0, t, k)
  {
    assert forall i: nat :: Lookup(t.outcomes, ActionId(k, i)) == Lookup(s.outcomes, ActionId(k, i));
  }

  /** What a move does to the node of its goroutine, and to the others. */
  lemma MoveAtNode<V>(c: Config<V>, s: State<V>, m: Move, k: Key)
    requires Inv(c, s) && Enabled(c, s, m) && k in s.pc
    ensures SameNode(s, Do(c, s, m), k) || ((IsStep(m) || m.RunAction? || m.Decrement?) && m.k == k)
  {
    if m.RunAction? {
      if m.k != k {
        RunElsewhere(c, s, m.k, k);
      }
    } else if m.Decrement? {
      if m.k != k {
        DecrementElsewhere(c, s, m.k, k);
      }
    } else if m.Dispatch? {
      DispatchElsewhere(c, s, k);
    } else if IsStep(m) {
      if m.k != k {
        StepElsewhere(c, s, m, k);
      }
    }
  }

  lemma StepElsewhere<V>(c: Config<V>, s: State<V>, m: Move, x: Key)
    requires Enabled(c, s, m) && IsStep(m) && x in s.pc && x != m.k
    ensures SameNode(s, Do(c, s, m), x)
  {
    StepEffect(c, s, m);
  }

  lemma DispatchElsewhere<V>(c: Config<V>, s: State<V>, x: Key)
    requires QueueInv(s) && Enabled(c, s, Dispatch) && x in s.pc
    ensures SameNode(s, Do(c, s, Dispatch), x)
  {
    assert s.queue[0] in s.queue;
  }

  lemma DecrementElsewhere<V>(c: Config<V>, s: State<V>, k: Key, x: Key)
    requires Inv(c, s) && Enabled(c, s, Decrement(k)) && x in s.pc && x != k
    ensures SameNode(s, Do(c, s, Decrement(k)), x)
  {
    DecrementSafe(c, s, k);
    DecrementKeeps(c, s, k);
    var w := c.graph.edges[s.pc[k].rest[0]].waiter;
    DecrementEffect(c, s, k, w);
    assert x == w ==> NotYetRead(s.pc[x]) && NotYetRead(DoDecrement(c, s, k).pc[x]);
  }

  lemma RunElsewhere<V>(c: Config<V>, s: State<V>, k: Key, x: Key)
    requires Enabled(c, s, RunAction(k)) && x in s.pc && x != k
    ensures SameNode(s, DoAction(c, s, k), x)
  {
  }

  lemma DecrementFits<V>(c: Config<V>, w0: map<Key, V>, s: State<V>, k: Key)
    requires Inv(c, s) && Enabled(c, s, Decrement(k)) && NodeFits(c, w0, s, k)
    ensures k in Do(c, s, Decrement(k)).pc && NodeFits(c, w0, Do(c, s, Decrement(k)), k)
  {
    DecrementSafe(c, s, k);
    DecrementEffect(c, s, k, c.graph.edges[s.pc[k].rest[0]].waiter);
    DecrementKeeps(c, s, k);
  }

  lemma DecrementKeeps<V>(c: Config<V>, s: State<V>, k: Key)
    requires Enabled(c, s, Decrement(k))
    ensures DoDecrement(c, s, k).world == s.world && DoDecrement(c, s, k).outcomes == s.outcomes
  {
  }

  lemma NodeStillFits<V>(c: Config<V>, w0: map<Key, V>, s: State<V>, m: Move, k: Key)
    requires Inv(c, s) && Enabled(c, s, m) && k in s.pc && NodeFits(c, w0, s, k)
    ensures k in Do(c, s, m).pc && NodeFits(c, w0, Do(c, s, m), k)
  {
    MoveAtNode(c, s, m, k);
    if SameNode(s, Do(c, s, m), k) {
      SameFits(c, w0, s, Do(c, s, m), k);
    } else if m.RunAction? {
      ActionFits(c, w0, s, k);
    } else if m.Decrement? {
      DecrementFits(c, w0, s, k);
    } else {
      StepEffect(c, s, m);
      StepSkipsOrRuns(c, w0, s, m, Lookup(s.world, k));
    }
  }

  lemma MoveFits<V>(c: Config<V>, w0: map<Key, V>, s: State<V>, m: Move)
    requires Inv(c, s) && AllFit(c, w0, s) && Enabled(c, s, m)
    ensures AllFit(c, w0, Do(c, s, m))
  {
    var t := Do(c, s, m);
    StepInv(c, s, m);
    forall k | k in t.pc && k in c.graph.sizes ensures NodeFits(c, w0, t, k) {
      assert NodeFits(c, w0, s, k);
      NodeStillFits(c, w0, s, m, k);
    }
    forall k | k !in t.pc ensures Lookup(t.world, k) == Lookup(w0, k) {
      WorldOfOthers(c, s, m, k);
    }
  }

  lemma WorldOfOthers<V>(c: Config<V>, s: State<V>, m: Move, k: Key)
    requires Enabled(c, s, m) && k !in s.pc
    ensures Lookup(Do(c, s, m).world, k) == Lookup(s.world, k)
  {
  }

  lemma {:induction false} LeadsFits<V(!new)>(c: Config<V>, w0: map<Key, V>, s: State<V>, moves: seq<Move>, t: State<V>)
    requires Inv(c, s) && AllFit(c, w0, s) && Leads(c, s, moves, t)
    ensures AllFit(c, w0, t)
    decreases |moves|
  {
    if moves != [] {
      MoveFits(c, w0, s, moves[0]);
      StepInv(c, s, moves[0]);
      LeadsFits(c, w0, Do(c, s, moves[0]), moves[1..], t);
    }
  }

  lemma InitFits<V>(c: Config<V>, s: State<V>)
    requires Init(c, s)
    ensures AllFit(c, s.world, s)
  {
  }

  /** In a run that has returned: all actions of the node were skipped, and its entry is as it was. */
  ghost predicate NodeSkipped<V>(c: Config<V>, w0: map<Key, V>, s: State<V>, k: Key)
    requires k in c.graph.sizes
  {
    Skips(w0, k, c.graph.sizes[k], Lookup(s.world, k), s.outcomes)
  }

  /** In a run that has returned: the node went through its list as if it were alone. */
  ghost predicate NodeRan<V>(c: Config<V>, w0: map<Key, V>, s: State<V>, k: Key)
    requires k in c.graph.sizes
  {
    Runs(c, w0, k, c.graph.sizes[k], Lookup(s.world, k), s.outcomes)
  }

  /**
   Every node of a run that has returned was skipped as a whole, or has run its list up to its first
   failure: the schedule decides no more than which of the two.
   */
  lemma SkippedOrRan<V(!new)>(c: Config<V>, s0: State<V>, moves: seq<Move>, s: State<V>, k: Key)
    requires Init(c, s0) && Leads(c, s0, moves, s) && s.returned
    ensures k in c.graph.sizes ==> NodeSkipped(c, s0.world, s, k) || NodeRan(c, s0.world, s, k)
    ensures k !in c.graph.sizes ==> Lookup(s.world, k) == Lookup(s0.world, k)
  {
    InitInv(c, s0);
    LeadsInv(c, s0, moves, s);
    InitFits(c, s0);
    LeadsFits(c, s0.world, s0, moves, s);
    if k in c.graph.sizes {
      assert s.pc[k] == Finished;
      assert NodeFits(c, s0.world, s, k);
    }
  }

  // ---- Where nothing can fail.

  /** A set of nodes none of which fails by itself, with all nodes they wait for. */
  ghost predicate Quiet<V>(c: Config<V>, w0: map<Key, V>, z: set<Key>) {
    && (forall k :: k in z ==> !OwnFails(c, w0, k))
    && (forall e: nat :: e < |c.graph.edges| && c.graph.edges[e].waiter in z ==> c.graph.edges[e].needed in z)
  }

  predicate NoErr(p: Pc) {
    match p
    case Running(_, err) => !err
    case Notify(_, err) => !err
    case MarkSelf => false
    case MarkNext(_) => false
    case _ => true
  }

  /** The node has read no error, has run its actions so far, and nobody has marked it. */
  ghost predicate Untroubled<V>(c: Config<V>, w0: map<Key, V>, s: State<V>, k: Key)
    requires k in s.pc && k in c.graph.sizes
  {
    && NoErr(s.pc[k]) && k !in s.wasError
    && Runs(c, w0, k, Progress(s.pc[k], c.graph.sizes[k]), Lookup(s.world, k), s.outcomes)
  }

  ghost predicate AllUntroubled<V>(c: Config<V>, w0: map<Key, V>, s: State<V>, z: set<Key>) {
    forall k {:trigger Untroubled(c, w0, s, k)} :: k in z && k in s.pc && k in c.graph.sizes ==> Untroubled(c, w0, s, k)
  }

  /** A move elsewhere leaves an untroubled node untroubled, unless it marks the node. */
  lemma SameUntroubled<V>(c: Config<V>, w0: map<Key, V>, s: State<V>, t: State<V>, k: Key)
    requires SameNode(s, t, k) && k in c.graph.sizes && Untroubled(c, w0, s, k) && k !in t.wasError
    ensures Untroubled(c, w0, t, k)
  {
    assert forall i: nat :: Lookup(t.outcomes, ActionId(k, i)) == Lookup(s.outcomes, ActionId(k, i));
  }

  lemma ActionUntroubled<V>(c: Config<V>, w0: map<Key, V>, s: State<V>, k: Key)
    requires Enabled(c, s, RunAction(k)) && Untroubled(c, w0, s, k) && !OwnFails(c, w0, k)
    ensures Untroubled(c, w0, DoAction(c, s, k), k)
  {
    var i := s.pc[k].next;
    ActionWrites(c, s, k);
    AloneSucceeds(c, w0, k, i);
    RunsNext(c, w0, k, i, Lookup(s.world, k), Alone(c, k, i + 1, Lookup(w0, k)).0, s.outcomes);
  }

  lemma StepUntroubled<V>(c: Config<V>, w0: map<Key, V>, s: State<V>, m: Move)
    requires Enabled(c, s, m) && IsStep(m) && m.k in c.graph.sizes && ValidPc(c.graph, m.k, s.pc[m.k]) && Untroubled(c, w0, s, m.k)
    ensures Untroubled(c, w0, Do(c, s, m), m.k)
  {
  }

  lemma DecrementUntroubled<V>(c: Config<V>, w0: map<Key, V>, s: State<V>, k: Key)
    requires Inv(c, s) && Enabled(c, s, Decrement(k)) && Untroubled(c, w0, s, k) && k !in Do(c, s, Decrement(k)).wasError
    ensures k in Do(c, s, Decrement(k)).pc && Untroubled(c, w0, Do(c, s, Decrement(k)), k)
  {
    DecrementSafe(c, s, k);
    DecrementKeeps(c, s, k);
    NoErrPassedOn(c, s, k);
  }

  lemma NoErrPassedOn<V>(c: Config<V>, s: State<V>, k: Key)
    requires Enabled(c, s, Decrement(k)) && NoErr(s.pc[k]) && c.graph.edges[s.pc[k].rest[0]].waiter != k
    ensures DoDecrement(c, s, k).pc[k] == Notify(s.pc[k].rest[1..], false)
  {
  }

  /** A move that marks a node is made by the node itself or by one it waits for, and that is in error. */
  lemma Marker<V>(c: Config<V>, s: State<V>, m: Move, x: Key)
    requires ShapeInv(c, s) && Enabled(c, s, m) && x in Do(c, s, m).wasError && x !in s.wasError
    ensures (IsStep(m) || m.Decrement?) && m.k in s.pc && !NoErr(s.pc[m.k])
    ensures m.k == x || exists e: nat :: e < |c.graph.edges| && c.graph.edges[e] == Edge(x, m.k)
  {
    if !m.StoreOwnError? {
      var e := s.pc[m.k].rest[0];
      assert e in s.pc[m.k].rest;
      assert c.graph.edges[e] == Edge(x, m.k);
    }
  }

  /** Nodes of the quiet set are not marked. */
  lemma QuietUnmarked<V>(c: Config<V>, w0: map<Key, V>, s: State<V>, m: Move, z: set<Key>, x: Key)
    requires ShapeInv(c, s) && Enabled(c, s, m) && Quiet(c, w0, z) && AllUntroubled(c, w0, s, z)
    requires x in z && x !in s.wasError
    ensures x !in Do(c, s, m).wasError
  {
    if (IsStep(m) || m.Decrement?) && m.k in z {
      assert Untroubled(c, w0, s, m.k);
    }
    if x in Do(c, s, m).wasError {
      Marker(c, s, m, x);
    }
  }

  lemma NodeUntroubled<V>(c: Config<V>, w0: map<Key, V>, s: State<V>, m: Move, k: Key)
    requires Inv(c, s) && Enabled(c, s, m) && k in s.pc && k in c.graph.sizes && Untroubled(c, w0, s, k)
    requires !OwnFails(c, w0, k) && k !in Do(c, s, m).wasError
    ensures k in Do(c, s, m).pc && Untroubled(c, w0, Do(c, s, m), k)
  {
    MoveAtNode(c, s, m, k);
    if SameNode(s, Do(c, s, m), k) {
      SameUntroubled(c, w0, s, Do(c, s, m), k);
    } else if m.RunAction? {
      ActionUntroubled(c, w0, s, k);
    } else if m.Decrement? {
      DecrementUntroubled(c, w0, s, k);
    } else {
      StepEffect(c, s, m);
      StepUntroubled(c, w0, s, m);
    }
  }

  lemma MoveUntroubled<V>(c: Config<V>, w0: map<Key, V>, s: State<V>, m: Move, z: set<Key>)
    requires Inv(c, s) && Quiet(c, w0, z) && AllUntroubled(c, w0, s, z) && Enabled(c, s, m)
    ensures AllUntroubled(c, w0, Do(c, s, m), z)
  {
    var t := Do(c, s, m);
    StepInv(c, s, m);
    forall k | k in z && k in t.pc && k in c.graph.sizes ensures Untroubled(c, w0, t, k) {
      assert Untroubled(c, w0, s, k);
      QuietUnmarked(c, w0, s, m, z, k);
      NodeUntroubled(c, w0, s, m, k);
    }
  }

  lemma {:induction false} LeadsUntroubled<V(!new)>(c: Config<V>, w0: map<Key, V>, s: State<V>, moves: seq<Move>, t: State<V>, z: set<Key>)
    requires Inv(c, s) && Quiet(c, w0, z) && AllUntroubled(c, w0, s, z) && Leads(c, s, moves, t)
    ensures AllUntroubled(c, w0, t, z)
    decreases |moves|
  {
    if moves != [] {
      MoveUntroubled(c, w0, s, moves[0], z);
      StepInv(c, s, moves[0]);
      LeadsUntroubled(c, w0, Do(c, s, moves[0]), moves[1..], t, z);
    }
  }

  lemma InitUntroubled<V>(c: Config<V>, s: State<V>, z: set<Key>)
    requires Init(c, s)
    ensures AllUntroubled(c, s.world, s, z)
  {
  }

  /** A node that does not fail by itself, nor any node below it, runs, and all its actions succeed. */
  lemma QuietSucceeds<V(!new)>(c: Config<V>, s0: State<V>, moves: seq<Move>, s: State<V>, z: set<Key>, k: Key)
    requires Init(c, s0) && Leads(c, s0, moves, s) && s.returned && Quiet(c, s0.world, z)
    requires k in z && k in c.graph.sizes
    ensures NodeRan(c, s0.world, s, k)
    ensures forall i: nat {:trigger ActionId(k, i)} :: i < c.graph.sizes[k] ==> Lookup(s.outcomes, ActionId(k, i)) == Some(Succeeded)
  {
    InitInv(c, s0);
    LeadsInv(c, s0, moves, s);
    InitUntroubled(c, s0, z);
    LeadsUntroubled(c, s0.world, s0, moves, s, z);
    assert Untroubled(c, s0.world, s, k);
    forall i: nat | i < c.graph.sizes[k] ensures AloneOutcome(c, s0.world, ActionId(k, i)) == Succeeded {
      AloneSucceeds(c, s0.world, k, i);
    }
  }

  lemma AloneSucceeds<V>(c: Config<V>, w0: map<Key, V>, k: Key, i: nat)
    requires k in c.graph.sizes && i < c.graph.sizes[k] && !OwnFails(c, w0, k)
    ensures AloneOutcome(c, w0, ActionId(k, i)) == Succeeded
    ensures Alone(c, k, i + 1, Lookup(w0, k)) == (c.exec(ActionId(k, i), Alone(c, k, i, Lookup(w0, k)).0).0, false)
  {
    var v := Lookup(w0, k);
    AloneNext(c, k, i, v);
    if Alone(c, k, i, v).1 {
      ErrorStays(c, k, i, c.graph.sizes[k], v);
    }
    if Alone(c, k, i + 1, v).1 {
      ErrorStays(c, k, i + 1, c.graph.sizes[k], v);
    }
  }
}

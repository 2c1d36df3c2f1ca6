/** Where every step of the message queue leaves nodes and threads. */
module MessageQueueResults {
  import opened WaitQueue
  import opened MessageQueueSpec
  import opened MessageQueueRuns

  // ---------------------------------------------------------------------------------
  // Nodes
  // ---------------------------------------------------------------------------------

  /** The queue, the free list and the nodes in flight after a step */
  ghost predicate NodesMove(p: Pool, q: Pool, s: Step) {
    match s
    case ReserveStep =>
      && q.queue == p.queue
      && (if p.freeList == [] then q.freeList == [] && q.flying == p.flying
          else p.freeList == [p.freeList[0]] + q.freeList && q.flying == p.flying[p.freeList[0] := Reserved])
    case FillStep(n, buffer, last) =>
      q.queue == p.queue && q.freeList == p.freeList && q.flying == p.flying[n := Filled(buffer, last)]
    case AppendStep(n) => q.queue == p.queue + [n] && q.freeList == p.freeList && q.flying == p.flying - {n}
    case PrependStep(n) => q.queue == [n] + p.queue && q.freeList == p.freeList && q.flying == p.flying - {n}
    case GiveBackStep(n) => q.queue == p.queue && q.freeList == [n] + p.freeList && q.flying == p.flying - {n}
    case ResetStep => q.queue == [] && q.flying == p.flying && multiset(q.freeList) == multiset(p.freeList) + multiset(p.queue)
    case RecvStep(_, _, _) => HeadTaken(p, q)
    case RecvAgainStep(_, _, _) => HeadTaken(p, q)
    case _ => q == p
  }

  ghost predicate HeadTaken(p: Pool, q: Pool) {
    if p.queue == [] then q == p
    else p.queue == [p.queue[0]] + q.queue && q.freeList == p.freeList && q.flying.Keys == p.flying.Keys + {p.queue[0]}
  }

  lemma {:induction false} ReserveMoves(p: Pool)
    requires PoolOk(p)
    ensures NodesMove(p, Reserve(p), ReserveStep)
  {
    EndsOf(p);
    hide PoolOk;
  }

  lemma {:induction false} GiveBackMoves(p: Pool, n: nat)
    requires PoolOk(p) && n in p.flying
    ensures NodesMove(p, GiveBack(p, n), GiveBackStep(n))
  {
    GiveBackKeeps(p, n);
    hide PoolOk;
  }

  lemma {:induction false} FillMoves(p: Pool, n: nat, buffer: seq<int>, last: bool)
    requires PoolOk(p) && n in p.flying && |buffer| <= p.msgSize
    ensures NodesMove(p, Fill(p, n, buffer, last), FillStep(n, buffer, last))
  {
    FillKeeps(p, n, buffer, last);
    assert DataOk(p);
    hide PoolOk;
  }

  lemma {:induction false} ReverseCount(s: seq<nat>)
    ensures multiset(Reverse(s)) == multiset(s)
  {
    if s != [] {
      ReverseCount(s[1..]);
      assert s == [s[0]] + s[1..];
    }
  }

  lemma {:induction false} ResetMoves(p: Pool)
    requires PoolOk(p)
    ensures NodesMove(p, ResetPool(p), ResetStep)
  {
    hide PoolOk, ResetPool, Reverse;
    MessageQueueSpec.ResetKeeps(p);
    ReverseCount(p.queue);
    CountBoth(Reverse(p.queue), p.freeList);
  }

  lemma {:induction false} CountBoth(a: seq<nat>, b: seq<nat>)
    ensures multiset(a + b) == multiset(b) + multiset(a)
  {
  }

  lemma {:induction false} LinkMoves(p: Pool, n: nat)
    ensures NodesMove(p, Append(p, n), AppendStep(n)) && NodesMove(p, Prepend(p, n), PrependStep(n))
  {
  }

  lemma {:induction false} PopMoves(p: Pool)
    requires PoolOk(p)
    ensures p.queue != [] ==> HeadTaken(p, Pop(p))
    ensures p.entry == |p.queue|
  {
    hide PoolOk;
    EndsOf(p);
    if p.queue != [] {
      PopKeeps(p);
    }
  }

  /** Every step moves exactly the nodes that its caller holds, or that the code takes from the front of a list. */
  lemma {:induction false} NextMovesNodes(m: Mq, s: Step)
    requires Inv(m) && Enabled(m, s)
    ensures NodesMove(m.pool, Next(m, s).pool, s)
  {
    assert PoolOk(m.pool);
    hide Inv, PoolOk, NodesMove, Reserve, Fill, GiveBack, Append, Prepend, ResetPool, RecvSection, Without, FailAll;
    match s
    case ReserveStep => ReserveMoves(m.pool);
    case FillStep(n, buffer, last) => FillMoves(m.pool, n, buffer, last);
    case AppendStep(n) => LinkMoves(m.pool, n);
    case PrependStep(n) => LinkMoves(m.pool, n);
    case GiveBackStep(n) => GiveBackMoves(m.pool, n);
    case RecvStep(t, p, timeout) => RecvMoves(m, Waiter(t, p, 0, timeout, ()), s);
    case RecvAgainStep(t, p, elapsed) =>
      RecvMoves(m.(woken := m.woken - {t}), m.woken[t].(prio := p, timeout := Remaining(m.woken[t].timeout, elapsed)), s);
    case ResetStep => ResetMoves(m.pool);
    case _ => NothingMoves(m.pool, s);
  }

  lemma {:induction false} RecvMoves(m: Mq, w: Caller, s: Step)
    requires PoolOk(m.pool) && (s.RecvStep? || s.RecvAgainStep?)
    ensures NodesMove(m.pool, RecvSection(m, w).0.pool, s)
  {
    hide PoolOk, Pop, Enqueue;
    PopMoves(m.pool);
  }

  lemma {:induction false} NothingMoves(p: Pool, s: Step)
    requires s.TimerStep? || s.ReturnStep?
    ensures NodesMove(p, p, s)
  {
  }

  // ---------------------------------------------------------------------------------
  // Threads
  // ---------------------------------------------------------------------------------

  /** A receiver takes a message exactly if there is one; otherwise it gives up exactly if its time is used up. */
  lemma {:induction false} RecvAnswers(m: Mq, w: Caller)
    requires PoolOk(m.pool)
    ensures
      var (v, r) := RecvSection(m, w);
      && (r == Ok <==> m.pool.queue != [])
      && (r == TimedOut <==> m.pool.queue == [] && w.timeout == 0)
      && (r == Blocked <==> m.pool.queue == [] && w.timeout != 0)
      && (r == Ok ==> v == m.(pool := v.pool))
      && (r == TimedOut ==> v == m)
      && (r == Blocked ==>
           && v == m.(receivers := v.receivers, clock := m.clock + 1)
           && (forall x :: x in v.receivers <==> x in m.receivers || x == w.(stamp := m.clock)))
  {
    EndsOf(m.pool);
    EnqueueMembers(m.flag, m.receivers, w.(stamp := m.clock));
    hide PoolOk, Enqueue, Pop;
  }

  /** A message that is queued wakes the first suspended receiver, and no other. */
  lemma {:induction false} SendWakes(m: Mq, s: Step)
    requires Inv(m) && Enabled(m, s) && (s.AppendStep? || s.PrependStep?)
    ensures
      var v := Next(m, s);
      && v.failed == m.failed
      && (m.receivers == [] ==> v.receivers == [] && v.woken == m.woken)
      && (m.receivers != [] ==>
           && v.woken == m.woken[m.receivers[0].tid := m.receivers[0]]
           && (forall w :: w in v.receivers <==> w in m.receivers && w.tid != m.receivers[0].tid))
  {
    if m.receivers != [] {
      assert Without(m.receivers, 0) == m.receivers[1..];
      WithoutFacts(m.flag, m.receivers, 0, m.clock);
    }
    hide Inv, Append, Prepend, Without;
  }

  /**
    A woken receiver that finds the queue empty again gives up exactly if it has slept for as
    long as it had left, and otherwise waits for the rest of that time.
   */
  lemma {:induction false} ReceiverRetries(m: Mq, t: nat, prio: nat, elapsed: nat)
    requires Inv(m) && t in m.woken
    ensures
      var v, w := Next(m, RecvAgainStep(t, prio, elapsed)), m.woken[t];
      && v.woken == m.woken - {t} && v.failed == m.failed
      && (m.pool.queue != [] ==> v.receivers == m.receivers)
      && (m.pool.queue == [] && (w.timeout == 0 || 0 < w.timeout <= elapsed) ==> v == m.(woken := m.woken - {t}))
      && (m.pool.queue == [] && (w.timeout < 0 || elapsed < w.timeout) ==>
           w.(prio := prio, stamp := m.clock, timeout := if w.timeout < 0 then w.timeout else w.timeout - elapsed) in v.receivers)
  {
    var w := m.woken[t];
    RemainingEnds(w.timeout, elapsed);
    RecvAnswers(m.(woken := m.woken - {t}), w.(prio := prio, timeout := Remaining(w.timeout, elapsed)));
    hide PoolOk, QueueOk, OnePlace, NoLostWakeup, RecvSection;
  }

  lemma {:induction false} TimeoutFails(m: Mq, i: nat)
    requires Inv(m) && i < |m.receivers|
    ensures
      var v := Next(m, TimerStep(i));
      && v == m.(receivers := v.receivers, failed := m.failed[m.receivers[i].tid := TimedOut])
      && (forall w :: w in v.receivers <==> w in m.receivers && w.tid != m.receivers[i].tid)
  {
    WithoutFacts(m.flag, m.receivers, i, m.clock);
    hide Inv, Without;
  }

  lemma {:induction false} ResetFails(m: Mq, t: nat)
    ensures
      var v := Next(m, ResetStep);
      && v.receivers == [] && v.woken == m.woken
      && (t in Tids(m.receivers) ==> t in v.failed && v.failed[t] == Failed)
      && (t !in Tids(m.receivers) ==> (t in v.failed <==> t in m.failed) && (t in m.failed ==> v.failed[t] == m.failed[t]))
  {
    FailAllValues(m.failed, m.receivers, t);
    hide FailAll, Tids, ResetPool;
  }
}

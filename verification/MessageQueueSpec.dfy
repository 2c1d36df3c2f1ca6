/**
  The message queue: a pool of nodes linked by `next` into a free list and a queue, and the
  threads that wait for a message.

  A send or a receive uses two interrupts-off sections: it takes a node out of one list, works
  on it with interrupts on, and puts it into the other list.  Each step below is one such
  section, or the private work between two of them, so any interleaving of threads is some
  sequence of steps.
 */
module MessageQueueSpec {
  import opened WaitQueue
  import opened Rings
  import opened Chains

  /** What a thread does with a node that is in neither list, and the buffer that was copied into it */
  datatype Stage = Reserved | Filled(bytes: seq<int>, last: bool) | Taken(bytes: seq<int>)

  /** The node numbers of a pool with `max` nodes, each once */
  ghost function Pool0(max: nat): multiset<nat> {
    if max == 0 then multiset{} else Pool0(max - 1) + multiset{max - 1}
  }

  lemma {:induction false} Pool0Counts(max: nat, n: nat)
    ensures Pool0(max)[n] == (if n < max then 1 else 0)
    ensures |Pool0(max)| == max
  {
    if max > 0 {
      Pool0Counts(max - 1, n);
    }
  }

  /** Every pool node is in exactly one of the queue, the free list and the nodes in flight. */
  ghost predicate Partition(queue: seq<nat>, free: seq<nat>, flying: set<nat>, max: nat) {
    multiset(queue) + multiset(free) + multiset(flying) == Pool0(max)
  }

  /** The pool is conserved: queued, free and in-flight nodes always add up to its size. */
  lemma {:induction false} Conservation(queue: seq<nat>, free: seq<nat>, flying: set<nat>, max: nat)
    requires Partition(queue, free, flying, max)
    ensures |queue| + |free| + |flying| == max
  {
    Pool0Counts(max, 0);
    assert |multiset(queue) + multiset(free) + multiset(flying)| == |queue| + |free| + |flying|;
  }

  // How nodes move between the three places

  lemma {:induction false} Apart(queue: seq<nat>, free: seq<nat>, flying: set<nat>, max: nat, n: nat)
    requires Partition(queue, free, flying, max)
    ensures n in queue ==> n !in free && n !in flying && n < max
    ensures n in free ==> n !in queue && n !in flying && n < max
    ensures n in flying ==> n !in queue && n !in free && n < max
  {
    Pool0Counts(max, n);
    var m := multiset(queue) + multiset(free) + multiset(flying);
    assert m[n] == multiset(queue)[n] + multiset(free)[n] + multiset(flying)[n];
  }

  /** The last node of the queue is not there twice. */
  lemma {:induction false} NoRepeat(queue: seq<nat>, free: seq<nat>, flying: set<nat>, max: nat, i: nat, j: nat)
    requires Partition(queue, free, flying, max) && i < j < |queue|
    ensures queue[i] != queue[j]
  {
    Pool0Counts(max, queue[j]);
    var n := queue[j];
    assert queue == queue[..j] + [n] + queue[j + 1..];
    assert multiset(queue) == multiset(queue[..j]) + multiset{n} + multiset(queue[j + 1..]);
    assert multiset(queue)[n] <= (multiset(queue) + multiset(free) + multiset(flying))[n];
    assert queue[..j][i] == queue[i];
  }

  lemma {:induction false} HeadOut(s: seq<nat>)
    requires s != []
    ensures multiset(s) == multiset(s[1..]) + multiset{s[0]}
  {
    assert s == [s[0]] + s[1..];
  }

  lemma {:induction false} MoveToFlight(queue: seq<nat>, free: seq<nat>, flying: set<nat>, max: nat)
    requires Partition(queue, free, flying, max)
    ensures free != [] ==> Partition(queue, free[1..], flying + {free[0]}, max)
    ensures queue != [] ==> Partition(queue[1..], free, flying + {queue[0]}, max)
  {
    if free != [] {
      HeadOut(free);
      Apart(queue, free, flying, max, free[0]);
      assert multiset(flying + {free[0]}) == multiset(flying) + multiset{free[0]};
    }
    if queue != [] {
      HeadOut(queue);
      Apart(queue, free, flying, max, queue[0]);
      assert multiset(flying + {queue[0]}) == multiset(flying) + multiset{queue[0]};
    }
  }

  lemma {:induction false} MoveFromFlight(queue: seq<nat>, free: seq<nat>, flying: set<nat>, max: nat, n: nat)
    requires Partition(queue, free, flying, max) && n in flying
    ensures Partition(queue + [n], free, flying - {n}, max)
    ensures Partition([n] + queue, free, flying - {n}, max)
    ensures Partition(queue, [n] + free, flying - {n}, max)
  {
    assert multiset(flying) == multiset(flying - {n}) + multiset{n};
    assert multiset(queue + [n]) == multiset(queue) + multiset{n};
    assert multiset([n] + queue) == multiset{n} + multiset(queue);
    assert multiset([n] + free) == multiset{n} + multiset(free);
  }

  // ---------------------------------------------------------------------------------
  // The pool as a value, and its steps
  // ---------------------------------------------------------------------------------

  /**
    The fields of the queue object and of its nodes; then what they stand for: the queued nodes,
    the buffers their senders passed, the free nodes, and the nodes in flight.
   */
  datatype Pool = Pool(
    msgSize: nat, next: seq<int>, data: seq<seq<int>>, head: int, tail: int, free: int, entry: int,
    queue: seq<nat>, box: seq<seq<int>>, freeList: seq<nat>, flying: map<nat, Stage>)

  /** A node in flight keeps the buffer that was copied into it; a node to be appended ends its list. */
  ghost predicate FlyingOk(p: Pool) {
    forall n | n in p.flying && n < |p.next| && n < |p.data| ::
      match p.flying[n]
      case Reserved => true
      case Filled(b, last) => b <= p.data[n] && (last ==> p.next[n] == NULL)
      case Taken(b) => b <= p.data[n]
  }

  /** Every queued node keeps the buffer that was copied into it. */
  ghost predicate BoxOk(p: Pool) {
    && |p.box| == |p.queue|
    && (forall i | 0 <= i < |p.queue| && p.queue[i] < |p.data| :: p.box[i] <= p.data[p.queue[i]])
  }

  ghost predicate DataOk(p: Pool) {
    |p.data| == |p.next| && forall i | 0 <= i < |p.data| :: |p.data[i]| == p.msgSize
  }

  ghost predicate TailOk(p: Pool) {
    p.tail == if p.queue == [] then NULL else p.queue[|p.queue| - 1]
  }

  /**
    The lists are what the links say, they and the nodes in flight partition the pool, `tail`
    is the last queued node, `entry` the number of queued nodes, and contents are kept.
   */
  ghost predicate PoolOk(p: Pool) {
    && Partition(p.queue, p.freeList, p.flying.Keys, |p.next|)
    && Linked(p.next, p.head, p.queue) && Linked(p.next, p.free, p.freeList)
    && TailOk(p) && p.entry == |p.queue| && DataOk(p) && BoxOk(p) && FlyingOk(p)
  }

  function Rest<T>(s: seq<T>): seq<T> {
    if s == [] then [] else s[1..]
  }

  predicate IsNode(p: Pool, n: int) {
    0 <= n < |p.next| && n < |p.data|
  }

  /** First section of a send: take a free node, if there is one. */
  function Reserve(p: Pool): Pool {
    if IsNode(p, p.free) then
      p.(free := p.next[p.free], freeList := Rest(p.freeList), flying := p.flying[p.free := Reserved])
    else p
  }

  /** The sender copies its buffer; rt_mq_send also ends the node. */
  function Fill(p: Pool, n: nat, buffer: seq<int>, last: bool): Pool {
    if IsNode(p, n) && |buffer| <= |p.data[n]| then
      p.(next := if last then p.next[n := NULL] else p.next, data := p.data[n := buffer + p.data[n][|buffer|..]],
         flying := p.flying[n := Filled(buffer, last)])
    else p
  }

  /** The buffer a node in flight was filled with */
  function Bytes(p: Pool, n: nat): seq<int> {
    if n in p.flying && !p.flying[n].Reserved? then p.flying[n].bytes else []
  }

  /** Second section of rt_mq_send: link the node behind the tail. */
  function Append(p: Pool, n: nat): Pool {
    p.(next := if IsNode(p, p.tail) then p.next[p.tail := n] else p.next,
       tail := n, head := if p.head == NULL then n else p.head, entry := p.entry + 1,
       queue := p.queue + [n], box := p.box + [Bytes(p, n)], flying := p.flying - {n})
  }

  /** Second section of rt_mq_urgent: link the node before the head. */
  function Prepend(p: Pool, n: nat): Pool {
    p.(next := if IsNode(p, n) then p.next[n := p.head] else p.next,
       head := n, tail := if p.tail == NULL then n else p.tail, entry := p.entry + 1,
       queue := [n] + p.queue, box := [Bytes(p, n)] + p.box, flying := p.flying - {n})
  }

  /** First section of rt_mq_recv, when there is a message: take the head. */
  function Pop(p: Pool): Pool {
    if IsNode(p, p.head) then
      p.(head := p.next[p.head], tail := if p.tail == p.head then NULL else p.tail, entry := p.entry - 1,
         queue := Rest(p.queue), box := Rest(p.box),
         flying := p.flying[p.head := Taken(if p.box == [] then [] else p.box[0])])
    else p
  }

  /** Second section of rt_mq_recv: put the node on the free list. */
  function GiveBack(p: Pool, n: nat): Pool {
    if IsNode(p, n) then
      p.(next := p.next[n := p.free], free := n, freeList := [n] + p.freeList, flying := p.flying - {n})
    else p
  }

  /** The loop of rt_mq_control with RT_IPC_CMD_RESET */
  function ResetPool(p: Pool): Pool
    decreases |p.queue|
  {
    if p.head == NULL || p.queue == [] || !IsNode(p, p.head) then p.(entry := 0)
    else ResetPool(GiveBack(Pop(p), p.head))
  }

  // ---------------------------------------------------------------------------------
  // What the steps keep
  // ---------------------------------------------------------------------------------

  lemma {:induction false} InitOk(msgSize: nat, next: seq<int>, data: seq<seq<int>>, free: int, freeList: seq<nat>)
    requires Linked(next, free, freeList) && multiset(freeList) == Pool0(|next|)
    requires |data| == |next| && forall i | 0 <= i < |data| :: |data[i]| == msgSize
    ensures PoolOk(Pool(msgSize, next, data, NULL, NULL, free, 0, [], [], freeList, map[]))
  {
    var p := Pool(msgSize, next, data, NULL, NULL, free, 0, [], [], freeList, map[]);
    hide Pool0;
    assert multiset(p.queue) + multiset(freeList) + multiset(p.flying.Keys) == multiset(freeList);
  }

  /** The ends of the lists as the code tests them */
  lemma {:induction false} EndsOf(p: Pool)
    requires PoolOk(p)
    ensures p.head == NULL <==> p.queue == []
    ensures p.tail == NULL <==> p.queue == []
    ensures p.free == NULL <==> p.freeList == []
    ensures p.queue != [] ==> p.head == p.queue[0] && IsNode(p, p.head) && IsNode(p, p.tail)
    ensures p.freeList != [] ==> p.free == p.freeList[0] && IsNode(p, p.free)
    ensures p.entry == |p.queue| == |p.box|
  {
    hide Partition, FlyingOk;
    SegNodes(p.next, p.head, p.queue, NULL);
    SegNodes(p.next, p.free, p.freeList, NULL);
    hide Seg;
    assert p.queue != [] ==> p.queue[0] in p.queue && p.queue[|p.queue| - 1] in p.queue;
    assert p.freeList != [] ==> p.freeList[0] in p.freeList;
  }

  lemma {:induction false} ReserveKeeps(p: Pool)
    requires PoolOk(p)
    ensures PoolOk(Reserve(p))
  {
    if p.freeList != [] {
      var n := p.freeList[0];
      EndsOf(p);
      Apart(p.queue, p.freeList, p.flying.Keys, |p.next|, n);
      hide Partition, Linked;
      MoveToFlight(p.queue, p.freeList, p.flying.Keys, |p.next|);
      LinkedTail(p.next, p.free, p.freeList);
      assert p.flying[n := Reserved].Keys == p.flying.Keys + {n};
    }
  }

  lemma {:induction false} FillKeeps(p: Pool, n: nat, buffer: seq<int>, last: bool)
    requires PoolOk(p) && n in p.flying && |buffer| <= p.msgSize
    ensures IsNode(p, n) && PoolOk(Fill(p, n, buffer, last))
  {
    Apart(p.queue, p.freeList, p.flying.Keys, |p.next|, n);
    var q := Fill(p, n, buffer, last);
    hide Partition, Linked;
    LinkedFrame(p.next, p.head, p.queue, n, NULL);
    LinkedFrame(p.next, p.free, p.freeList, n, NULL);
    assert q.flying.Keys == p.flying.Keys;
    assert buffer <= q.data[n];
    forall i | 0 <= i < |p.queue| && p.queue[i] < |p.data| ensures p.box[i] <= q.data[p.queue[i]] {
      assert p.queue[i] in p.queue;
    }
  }

  lemma {:induction false} AppendKeeps(p: Pool, n: nat)
    requires PoolOk(p) && n in p.flying && p.flying[n].Filled? && p.flying[n].last
    ensures PoolOk(Append(p, n))
  {
    EndsOf(p);
    Apart(p.queue, p.freeList, p.flying.Keys, |p.next|, n);
    AppendLinks(p, n);
    MoveFromFlight(p.queue, p.freeList, p.flying.Keys, |p.next|, n);
    AppendContents(p, n);
    hide Partition, FlyingOk, BoxOk, Linked, DataOk;
    assert (p.flying - {n}).Keys == p.flying.Keys - {n};
  }

  lemma {:induction false} AppendLinks(p: Pool, n: nat)
    requires PoolOk(p) && n in p.flying && n < |p.next| && n !in p.queue && n !in p.freeList && p.next[n] == NULL
    ensures Linked(Append(p, n).next, Append(p, n).head, p.queue + [n]) && Linked(Append(p, n).next, p.free, p.freeList)
  {
    EndsOf(p);
    if p.queue != [] {
      Apart(p.queue, p.freeList, p.flying.Keys, |p.next|, p.tail);
      LinkedFrame(p.next, p.free, p.freeList, p.tail, n);
    }
    forall i, j | 0 <= i < j < |p.queue| ensures p.queue[i] != p.queue[j] {
      NoRepeat(p.queue, p.freeList, p.flying.Keys, |p.next|, i, j);
    }
    LinkedSnoc(p.next, p.head, p.queue, n);
    assert p.queue == [] ==> p.queue + [n] == [n];
  }

  lemma {:induction false} AppendContents(p: Pool, n: nat)
    requires PoolOk(p) && n in p.flying && p.flying[n].Filled? && IsNode(p, n)
    ensures FlyingOk(Append(p, n)) && BoxOk(Append(p, n)) && DataOk(Append(p, n))
  {
    EndsOf(p);
    if p.queue != [] {
      Apart(p.queue, p.freeList, p.flying.Keys, |p.next|, p.tail);
    }
    hide Partition, Linked;
  }

  lemma {:induction false} PrependKeeps(p: Pool, n: nat)
    requires PoolOk(p) && n in p.flying && p.flying[n].Filled?
    ensures PoolOk(Prepend(p, n))
  {
    Apart(p.queue, p.freeList, p.flying.Keys, |p.next|, n);
    LinkedCons(p.next, p.head, p.queue, n);
    LinkedFrame(p.next, p.free, p.freeList, n, p.head);
    MoveFromFlight(p.queue, p.freeList, p.flying.Keys, |p.next|, n);
    EndsOf(p);
    PrependContents(p, n);
    hide Partition, Linked, FlyingOk, BoxOk, DataOk;
    assert (p.flying - {n}).Keys == p.flying.Keys - {n};
  }

  lemma {:induction false} PrependContents(p: Pool, n: nat)
    requires PoolOk(p) && n in p.flying && p.flying[n].Filled? && IsNode(p, n)
    ensures FlyingOk(Prepend(p, n)) && BoxOk(Prepend(p, n)) && DataOk(Prepend(p, n))
  {
    hide Partition, Linked;
    var q := Prepend(p, n);
    forall i | 0 <= i < |q.queue| && q.queue[i] < |q.data| ensures q.box[i] <= q.data[q.queue[i]] {
      assert i > 0 ==> q.queue[i] == p.queue[i - 1] && q.box[i] == p.box[i - 1];
    }
  }

  lemma {:induction false} PopKeeps(p: Pool)
    requires PoolOk(p) && p.queue != []
    ensures PoolOk(Pop(p)) && p.queue[0] !in p.flying && p.head == p.queue[0]
    ensures Pop(p).queue == p.queue[1..] && Pop(p).box == p.box[1..] && Pop(p).flying == p.flying[p.head := Taken(p.box[0])]
  {
    var n := p.queue[0];
    EndsOf(p);
    Apart(p.queue, p.freeList, p.flying.Keys, |p.next|, n);
    PopTail(p);
    PopContents(p);
    MoveToFlight(p.queue, p.freeList, p.flying.Keys, |p.next|);
    LinkedTail(p.next, p.head, p.queue);
    hide Partition, TailOk, Linked, FlyingOk, BoxOk, DataOk;
    assert Pop(p).flying.Keys == p.flying.Keys + {n};
  }

  lemma {:induction false} PopTail(p: Pool)
    requires PoolOk(p) && p.queue != []
    ensures TailOk(Pop(p))
  {
    EndsOf(p);
    if |p.queue| > 1 {
      NoRepeat(p.queue, p.freeList, p.flying.Keys, |p.next|, 0, |p.queue| - 1);
    }
  }

  lemma {:induction false} PopContents(p: Pool)
    requires PoolOk(p) && p.queue != []
    ensures FlyingOk(Pop(p)) && BoxOk(Pop(p)) && DataOk(Pop(p))
  {
    EndsOf(p);
    hide Partition, Linked;
    var q := Pop(p);
    forall i | 0 <= i < |q.queue| && q.queue[i] < |q.data| ensures q.box[i] <= q.data[q.queue[i]] {
      assert q.queue[i] == p.queue[i + 1] && q.box[i] == p.box[i + 1];
    }
  }

  lemma {:induction false} GiveBackKeeps(p: Pool, n: nat)
    requires PoolOk(p) && n in p.flying
    ensures IsNode(p, n) && PoolOk(GiveBack(p, n))
  {
    Apart(p.queue, p.freeList, p.flying.Keys, |p.next|, n);
    LinkedFrame(p.next, p.head, p.queue, n, p.free);
    LinkedCons(p.next, p.free, p.freeList, n);
    MoveFromFlight(p.queue, p.freeList, p.flying.Keys, |p.next|, n);
    hide Partition, Linked;
    assert (p.flying - {n}).Keys == p.flying.Keys - {n};
  }

  function Reverse(s: seq<nat>): seq<nat> {
    if s == [] then [] else Reverse(s[1..]) + [s[0]]
  }

  /** A reset puts the queued nodes in front of the free ones, last first, and leaves nodes in flight alone. */
  lemma {:induction false} ResetKeeps(p: Pool)
    requires PoolOk(p)
    ensures
      var q := ResetPool(p);
      PoolOk(q) && q.queue == [] && q.box == [] && q.flying == p.flying && q.freeList == Reverse(p.queue) + p.freeList
      && |q.next| == |p.next|
    decreases |p.queue|
  {
    hide PoolOk, Pop, GiveBack, Reverse;
    EndsOf(p);
    ReverseStep(p.queue, p.freeList);
    if p.queue != [] {
      Recycled(p);
      var r := GiveBack(Pop(p), p.head);
      assert ResetPool(p) == ResetPool(r);
      hide ResetPool;
      ResetKeeps(r);
    } else {
      EmptyReset(p);
    }
  }

  lemma {:induction false} EmptyReset(p: Pool)
    requires PoolOk(p) && p.queue == []
    ensures PoolOk(p.(entry := 0)) && p.box == []
  {
  }

  lemma {:induction false} ReverseStep(q: seq<nat>, f: seq<nat>)
    ensures if q == [] then Reverse(q) + f == f else Reverse(q[1..]) + ([q[0]] + f) == Reverse(q) + f
  {
  }

  /** One turn of the reset loop: the head goes straight to the free list. */
  lemma {:induction false} Recycled(p: Pool)
    requires PoolOk(p) && p.queue != []
    ensures p.head == p.queue[0]
    ensures
      var r := GiveBack(Pop(p), p.head);
      && PoolOk(r) && r.queue == p.queue[1..] && r.freeList == [p.queue[0]] + p.freeList
      && r.flying == p.flying && |r.next| == |p.next|
  {
    hide PoolOk;
    PopKeeps(p);
    GiveBackKeeps(Pop(p), p.queue[0]);
    EndsOf(p);
    assert p.flying[p.head := Taken(p.box[0])] - {p.head} == p.flying;
  }
}

/** The message queue with the threads that wait for a message, over every interleaving */
module MessageQueueRuns {
  import opened WaitQueue
  import opened Chains
  import opened MessageQueueSpec

  type Caller = Waiter<()>

  datatype Mq = Mq(
    pool: Pool,
    flag: Flag,
    receivers: seq<Caller>,         // suspended because the queue was empty
    woken: map<nat, Caller>,        // receivers resumed without error that have not run yet
    failed: map<nat, Outcome>,      // receivers resumed with an error that have not returned yet
    clock: nat
  )

  /** A message has been linked: the first receiver is resumed. */
  function Wake(m: Mq): Mq {
    if m.receivers == [] then m
    else m.(receivers := m.receivers[1..], woken := m.woken[m.receivers[0].tid := m.receivers[0]])
  }

  /** The critical section of rt_mq_recv, on entry and after each wake-up */
  function RecvSection(m: Mq, w: Caller): (Mq, Outcome) {
    if m.pool.entry == 0 then
      if w.timeout == 0 then (m, TimedOut)
      else (m.(receivers := Enqueue(m.flag, m.receivers, w.(stamp := m.clock)), clock := m.clock + 1), Blocked)
    else (m.(pool := Pop(m.pool)), Ok)
  }

  datatype Step =
    | ReserveStep
    | FillStep(n: nat, buffer: seq<int>, last: bool)
    | AppendStep(n: nat)
    | PrependStep(n: nat)
    | RecvStep(t: nat, prio: nat, timeout: int)
    | RecvAgainStep(t: nat, prio: nat, elapsed: nat)
    | GiveBackStep(n: nat)
    | TimerStep(i: nat)
    | ReturnStep(t: nat)
    | ResetStep

  ghost function Busy(m: Mq): set<nat> {
    Tids(m.receivers) + m.woken.Keys + m.failed.Keys
  }

  /**
    What a thread that takes the step knows: it works on the node it holds, its buffer fits, it
    is not already inside a call, or it has been woken.
   */
  ghost predicate Enabled(m: Mq, s: Step) {
    match s
    case ReserveStep => true
    case FillStep(n, buffer, _) => n in m.pool.flying && m.pool.flying[n].Reserved? && |buffer| <= m.pool.msgSize
    case AppendStep(n) => n in m.pool.flying && m.pool.flying[n].Filled? && m.pool.flying[n].last
    case PrependStep(n) => n in m.pool.flying && m.pool.flying[n].Filled? && !m.pool.flying[n].last
    case RecvStep(t, _, _) => t !in Busy(m)
    case RecvAgainStep(t, _, _) => t in m.woken
    case GiveBackStep(n) => n in m.pool.flying && m.pool.flying[n].Taken?
    case TimerStep(i) => i < |m.receivers| && m.receivers[i].timeout > 0
    case ReturnStep(t) => t in m.failed
    case ResetStep => true
  }

  ghost function Next(m: Mq, s: Step): Mq {
    match s
    case ReserveStep => m.(pool := Reserve(m.pool))
    case FillStep(n, buffer, last) => m.(pool := Fill(m.pool, n, buffer, last))
    case AppendStep(n) => Wake(m.(pool := Append(m.pool, n)))
    case PrependStep(n) => Wake(m.(pool := Prepend(m.pool, n)))
    case RecvStep(t, p, timeout) => RecvSection(m, Waiter(t, p, 0, timeout, ())).0
    case RecvAgainStep(t, p, elapsed) =>
      if t in m.woken then
        RecvSection(m.(woken := m.woken - {t}), m.woken[t].(prio := p, timeout := Remaining(m.woken[t].timeout, elapsed))).0
      else m
    case GiveBackStep(n) => m.(pool := GiveBack(m.pool, n))
    case TimerStep(i) =>
      if i < |m.receivers| then
        m.(receivers := Without(m.receivers, i), failed := m.failed[m.receivers[i].tid := TimedOut])
      else m
    case ReturnStep(t) => m.(failed := m.failed - {t})
    case ResetStep => m.(pool := ResetPool(m.pool), receivers := [], failed := FailAll(m.failed, m.receivers))
  }

  // ---------------------------------------------------------------------------------
  // What every step keeps
  // ---------------------------------------------------------------------------------

  ghost predicate Apart3(r: set<nat>, w: set<nat>, f: set<nat>) {
    r !! w && r !! f && w !! f
  }

  lemma {:induction false} Apart3Moves(r: set<nat>, w: set<nat>, f: set<nat>, t: nat)
    requires Apart3(r, w, f)
    ensures t in r ==> Apart3(r - {t}, w + {t}, f) && Apart3(r - {t}, w, f + {t}) && t !in w
    ensures t in w ==> t !in r + (w - {t}) + f
    ensures Apart3(r, w - {t}, f) && Apart3(r, w, f - {t}) && Apart3({}, w, f + r)
    ensures t !in r + w + f ==> Apart3(r + {t}, w, f)
  {
  }

  ghost predicate Keyed(woken: map<nat, Caller>) {
    forall t | t in woken :: woken[t].tid == t
  }

  /** A thread is in at most one place. */
  ghost predicate OnePlace(m: Mq) {
    Apart3(Tids(m.receivers), m.woken.Keys, m.failed.Keys) && Keyed(m.woken)
  }

  lemma {:induction false} AddKey(woken: map<nat, Caller>, w: Caller)
    requires Keyed(woken)
    ensures Keyed(woken[w.tid := w]) && woken[w.tid := w].Keys == woken.Keys + {w.tid}
    ensures w.tid !in woken ==> |woken[w.tid := w]| == |woken| + 1
  {
  }

  /** While a receiver is suspended, every queued message has a woken receiver on its way. */
  ghost predicate NoLostWakeup(m: Mq, running: nat) {
    m.receivers != [] ==> m.pool.entry <= |m.woken| + running
  }

  ghost predicate InvDuring(m: Mq, running: nat) {
    PoolOk(m.pool) && QueueOk(m.flag, m.clock, m.receivers) && OnePlace(m) && NoLostWakeup(m, running)
  }

  ghost predicate Inv(m: Mq) {
    InvDuring(m, 0)
  }

  /** A new pool keeps the rest, as long as it has no more messages. */
  lemma {:induction false} PoolStep(m: Mq, p: Pool, running: nat)
    requires InvDuring(m, running) && PoolOk(p) && p.entry <= m.pool.entry
    ensures InvDuring(m.(pool := p), running)
  {
    hide PoolOk, QueueOk, Tids;
  }

  lemma {:induction false} WakeKeeps(m: Mq, p: Pool)
    requires Inv(m) && PoolOk(p) && p.entry == m.pool.entry + 1
    ensures Inv(Wake(m.(pool := p)))
  {
    hide PoolOk, QueueOk, Tids, Apart3, Keyed;
    if m.receivers != [] {
      DequeueFacts(m.flag, m.clock, m.receivers);
      AddKey(m.woken, m.receivers[0]);
      Apart3Moves(Tids(m.receivers), m.woken.Keys, m.failed.Keys, m.receivers[0].tid);
    }
  }

  lemma {:induction false} RecvKeeps(m: Mq, w: Caller)
    requires InvDuring(m, 1) && w.tid !in Busy(m)
    ensures Inv(RecvSection(m, w).0)
  {
    if m.pool.entry == 0 {
      assert w.tid !in Tids(m.receivers);
      hide PoolOk, QueueOk, OnePlace, Busy, Tids, Enqueue;
      if w.timeout != 0 {
        EnqueueFacts(m.flag, m.clock, m.receivers, w.(stamp := m.clock));
        JoinPlace(m, RecvSection(m, w).0, w.tid);
      }
    } else {
      hide PoolOk, QueueOk, OnePlace, Pop, Busy;
      EndsOf(m.pool);
      PopKeeps(m.pool);
      PopEntry(m.pool);
      SamePlace(m, m.(pool := Pop(m.pool)));
    }
  }

  lemma {:induction false} JoinPlace(m: Mq, v: Mq, t: nat)
    requires OnePlace(m) && t !in Busy(m) && Tids(v.receivers) == Tids(m.receivers) + {t}
    requires v.woken == m.woken && v.failed == m.failed
    ensures OnePlace(v)
  {
    hide Tids;
  }

  lemma {:induction false} SamePlace(m: Mq, v: Mq)
    requires OnePlace(m) && v.receivers == m.receivers && v.woken == m.woken && v.failed == m.failed
    ensures OnePlace(v)
  {
  }

  lemma {:induction false} PopEntry(p: Pool)
    requires PoolOk(p) && p.queue != []
    ensures Pop(p).entry == p.entry - 1
  {
    EndsOf(p);
  }

  lemma {:induction false} LeavePlace(m: Mq, t: nat)
    requires OnePlace(m) && t in m.woken
    ensures var v := m.(woken := m.woken - {t}); OnePlace(v) && t !in Busy(v) && |v.woken| == |m.woken| - 1
    ensures m.woken[t].tid == t
  {
    hide Tids;
    var v := m.(woken := m.woken - {t});
    assert v.woken.Keys == m.woken.Keys - {t};
  }

  lemma {:induction false} RecvAgainKeeps(m: Mq, t: nat, p: nat, elapsed: nat)
    requires Inv(m) && t in m.woken
    ensures Inv(Next(m, RecvAgainStep(t, p, elapsed)))
  {
    hide PoolOk, QueueOk, OnePlace, Busy, RecvSection;
    LeavePlace(m, t);
    RecvKeeps(m.(woken := m.woken - {t}), m.woken[t].(prio := p, timeout := Remaining(m.woken[t].timeout, elapsed)));
  }

  lemma {:induction false} TimerPlace(m: Mq, v: Mq, t: nat)
    requires OnePlace(m) && t in Tids(m.receivers) && Tids(v.receivers) == Tids(m.receivers) - {t}
    requires v.woken == m.woken && v.failed.Keys == m.failed.Keys + {t}
    ensures OnePlace(v)
  {
    hide Tids;
  }

  lemma {:induction false} TimerKeeps(m: Mq, i: nat)
    requires Inv(m) && i < |m.receivers|
    ensures Inv(Next(m, TimerStep(i)))
  {
    hide PoolOk, QueueOk, OnePlace, Tids;
    WithoutQueue(m.flag, m.clock, m.receivers, i);
    TimerPlace(m, Next(m, TimerStep(i)), m.receivers[i].tid);
  }

  lemma {:induction false} ResetStepKeeps(m: Mq)
    requires Inv(m)
    ensures Inv(Next(m, ResetStep))
  {
    hide PoolOk, QueueOk, Tids, ResetPool, Apart3, Keyed, Reverse;
    MessageQueueSpec.ResetKeeps(m.pool);
    FailAllKeys(m.failed, m.receivers);
    EmptyQueue<()>(m.flag, m.clock);
    Apart3Moves(Tids(m.receivers), m.woken.Keys, m.failed.Keys, 0);
  }

  lemma {:induction false} PoolStepKeeps(m: Mq, s: Step)
    requires Inv(m) && Enabled(m, s) && (s == ReserveStep || s.FillStep? || s.GiveBackStep?)
    ensures Inv(Next(m, s))
  {
    hide PoolOk, QueueOk, OnePlace;
    match s {
      case ReserveStep => ReserveKeeps(m.pool);
      case FillStep(n, buffer, last) => FillKeeps(m.pool, n, buffer, last);
      case GiveBackStep(n) => GiveBackKeeps(m.pool, n);
    }
    PoolStep(m, Next(m, s).pool, 0);
  }

  /** Every step of every thread, timer and reset keeps the invariant. */
  lemma {:induction false} NextKeeps(m: Mq, s: Step)
    requires Inv(m) && Enabled(m, s)
    ensures Inv(Next(m, s))
  {
    hide PoolOk, QueueOk, OnePlace, RecvSection, ResetPool, Reserve, Fill, GiveBack;
    match s
    case ReserveStep => PoolStepKeeps(m, s);
    case FillStep(_, _, _) => PoolStepKeeps(m, s);
    case GiveBackStep(_) => PoolStepKeeps(m, s);
    case AppendStep(n) =>
      AppendKeeps(m.pool, n);
      WakeKeeps(m, Append(m.pool, n));
    case PrependStep(n) =>
      PrependKeeps(m.pool, n);
      WakeKeeps(m, Prepend(m.pool, n));
    case RecvStep(t, p, timeout) => RecvKeeps(m, Waiter(t, p, 0, timeout, ()));
    case RecvAgainStep(t, p, elapsed) => RecvAgainKeeps(m, t, p, elapsed);
    case TimerStep(i) => TimerKeeps(m, i);
    case ReturnStep(t) => ReturnKeeps(m, t);
    case ResetStep => ResetStepKeeps(m);
  }

  lemma {:induction false} ReturnKeeps(m: Mq, t: nat)
    requires Inv(m) && t in m.failed
    ensures Inv(m.(failed := m.failed - {t}))
  {
    hide PoolOk, QueueOk, Tids, Apart3, Keyed;
    Apart3Moves(Tids(m.receivers), m.woken.Keys, m.failed.Keys, t);
    assert (m.failed - {t}).Keys == m.failed.Keys - {t};
  }

  // ---------------------------------------------------------------------------------
  // Runs
  // ---------------------------------------------------------------------------------

  ghost predicate IsRun(states: seq<Mq>, steps: seq<Step>) {
    && |states| == |steps| + 1
    && (forall i | 0 <= i < |steps| :: Enabled(states[i], steps[i]) && states[i + 1] == Next(states[i], steps[i]))
  }

  /** rt_mq_init: all nodes free, nobody waits; the contents of the nodes are whatever they are. */
  ghost predicate Initial(m: Mq) {
    && m == Mq(m.pool, m.flag, [], map[], map[], 0)
    && m.pool == Pool(m.pool.msgSize, m.pool.next, m.pool.data, NULL, NULL, m.pool.free, 0, [], [], m.pool.freeList, map[])
    && Linked(m.pool.next, m.pool.free, m.pool.freeList) && multiset(m.pool.freeList) == Pool0(|m.pool.next|)
    && DataOk(m.pool)
  }

  /** Every state of every interleaving satisfies the invariant. */
  lemma {:induction false} RunKeepsInv(states: seq<Mq>, steps: seq<Step>, n: nat)
    requires IsRun(states, steps) && Initial(states[0]) && n < |states|
    ensures Inv(states[n])
  {
    if n == 0 {
      var p := states[0].pool;
      InitOk(p.msgSize, p.next, p.data, p.free, p.freeList);
      EmptyQueue<()>(states[0].flag, 0);
      hide PoolOk, QueueOk;
    } else {
      hide Inv, Next, Enabled, Initial;
      RunKeepsInv(states, steps, n - 1);
      NextKeeps(states[n - 1], steps[n - 1]);
      assert states[n - 1 + 1] == Next(states[n - 1], steps[n - 1]);
    }
  }

  /**
    In every state of every interleaving: queued, free and in-flight nodes make up the pool,
    head and tail are null together and exactly when `entry` is 0, and suspended receivers mean
    that every message has a woken receiver on its way.
   */
  lemma {:induction false} RunKeepsPool(states: seq<Mq>, steps: seq<Step>, n: nat)
    requires IsRun(states, steps) && Initial(states[0]) && n < |states|
    ensures
      var p := states[n].pool;
      && PoolOk(p) && |p.queue| + |p.freeList| + |p.flying| == |p.next|
      && (p.head == NULL <==> p.tail == NULL) && (p.head == NULL <==> p.entry == 0)
      && (states[n].receivers != [] ==> p.entry <= |states[n].woken|)
  {
    RunKeepsInv(states, steps, n);
    var p := states[n].pool;
    EndsOf(p);
    Conservation(p.queue, p.freeList, p.flying.Keys, |p.next|);
  }

  /** What a step does to the queued messages: a deque of buffers, fed at both ends and read at the head */
  ghost predicate DequeStep(m: Mq, v: Mq, s: Step) {
    match s
    case AppendStep(n) => n in m.pool.flying && v.pool.box == m.pool.box + [Bytes(m.pool, n)]
    case PrependStep(n) => n in m.pool.flying && v.pool.box == [Bytes(m.pool, n)] + m.pool.box
    case RecvStep(_, _, _) => Received(m.pool, v.pool)
    case RecvAgainStep(_, _, _) => Received(m.pool, v.pool)
    case ResetStep => v.pool.box == [] && v.pool.flying == m.pool.flying
    case FillStep(n, buffer, last) => v.pool.box == m.pool.box && n in v.pool.flying && v.pool.flying[n] == Filled(buffer, last)
    case _ => v.pool.box == m.pool.box
  }

  /** A receiver got the first message, or there was none. */
  ghost predicate Received(p: Pool, q: Pool) {
    if p.box == [] then q == p
    else p.queue != [] && q.box == p.box[1..] && q.flying == p.flying[p.queue[0] := Taken(p.box[0])]
  }

  lemma {:induction false} NextIsDeque(m: Mq, s: Step)
    requires Inv(m) && Enabled(m, s)
    ensures DequeStep(m, Next(m, s), s)
  {
    match s
    case FillStep(n, buffer, last) =>
      FillKeeps(m.pool, n, buffer, last);
      assert DataOk(m.pool);
      hide PoolOk, QueueOk, OnePlace;
      FillIs(m.pool, n, buffer, last);
    case RecvStep(t, p, timeout) =>
      hide PoolOk, QueueOk, OnePlace, Enqueue;
      RecvIs(m, Waiter(t, p, 0, timeout, ()));
    case RecvAgainStep(t, p, elapsed) =>
      hide PoolOk, QueueOk, OnePlace, Enqueue;
      RecvIs(m.(woken := m.woken - {t}), m.woken[t].(prio := p, timeout := Remaining(m.woken[t].timeout, elapsed)));
    case ResetStep =>
      hide PoolOk, QueueOk, OnePlace, ResetPool, Reverse;
      MessageQueueSpec.ResetKeeps(m.pool);
    case _ =>
      hide PoolOk, QueueOk, OnePlace;
  }

  lemma {:induction false} RecvIs(m: Mq, w: Caller)
    requires PoolOk(m.pool)
    ensures Received(m.pool, RecvSection(m, w).0.pool)
  {
    hide PoolOk, Pop, Enqueue;
    EndsOf(m.pool);
    if m.pool.queue != [] {
      PopKeeps(m.pool);
    }
  }

  lemma {:induction false} FillIs(p: Pool, n: nat, buffer: seq<int>, last: bool)
    requires IsNode(p, n) && DataOk(p) && |buffer| <= p.msgSize
    ensures n in Fill(p, n, buffer, last).flying && Fill(p, n, buffer, last).flying[n] == Filled(buffer, last)
    ensures Fill(p, n, buffer, last).box == p.box
  {
  }

  /** The bytes rt_mq_recv copies out of the node it took */
  function CopyOut(p: Pool, n: nat, size: nat): seq<int>
    requires IsNode(p, n)
  {
    var d := p.data[n];
    d[..if size > |d| then |d| else size]
  }

  /**
    In every run, every queued message is a deque step away from the buffer its sender passed,
    and what a receiver copies out agrees with that buffer as far as both go.
   */
  lemma {:induction false} RunDelivers(states: seq<Mq>, steps: seq<Step>, i: nat)
    requires IsRun(states, steps) && Initial(states[0]) && i < |steps|
    ensures DequeStep(states[i], states[i + 1], steps[i])
  {
    hide Inv, Next, Enabled, DequeStep, Initial;
    RunKeepsInv(states, steps, i);
    NextIsDeque(states[i], steps[i]);
    assert states[i + 1] == Next(states[i], steps[i]);
  }

  lemma {:induction false} CopiesTheBuffer(states: seq<Mq>, steps: seq<Step>, i: nat, n: nat, size: nat)
    requires IsRun(states, steps) && Initial(states[0]) && i < |states|
    requires n in states[i].pool.flying && states[i].pool.flying[n].Taken?
    ensures
      var p := states[i].pool;
      && IsNode(p, n)
      && |CopyOut(p, n, size)| == (if size > p.msgSize then p.msgSize else size)
      && (var b, c := Bytes(p, n), CopyOut(p, n, size); if |b| <= |c| then b <= c else c <= b)
  {
    RunKeepsInv(states, steps, i);
    var p := states[i].pool;
    Apart(p.queue, p.freeList, p.flying.Keys, |p.next|, n);
    assert DataOk(p) && FlyingOk(p);
    hide PoolOk, QueueOk, OnePlace;
    assert p.flying[n].bytes <= p.data[n];
  }

  /** The reference: the deque of messages after `n` steps, from what senders and receivers did */
  ghost function Deque(states: seq<Mq>, steps: seq<Step>, n: nat): seq<seq<int>>
    requires |states| == |steps| + 1 && n <= |steps|
  {
    if n == 0 then []
    else
      var d, p := Deque(states, steps, n - 1), states[n - 1].pool;
      match steps[n - 1]
      case AppendStep(k) => d + [Bytes(p, k)]
      case PrependStep(k) => [Bytes(p, k)] + d
      case RecvStep(_, _, _) => Rest(d)
      case RecvAgainStep(_, _, _) => Rest(d)
      case ResetStep => []
      case _ => d
  }

  /** In every interleaving the stored messages are those of the deque, in its order. */
  lemma {:induction false} BoxIsDeque(states: seq<Mq>, steps: seq<Step>, n: nat)
    requires IsRun(states, steps) && Initial(states[0]) && n < |states|
    ensures states[n].pool.box == Deque(states, steps, n)
  {
    if n > 0 {
      hide IsRun, Initial;
      BoxIsDeque(states, steps, n - 1);
      RunDelivers(states, steps, n - 1);
      assert states[n - 1 + 1] == states[n];
    }
  }

  /** What a step appends for rt_mq_send, and what it takes for a receiver */
  ghost function SentBy(m: Mq, s: Step): seq<seq<int>> {
    if s.AppendStep? then [Bytes(m.pool, s.n)] else []
  }

  ghost function TakenBy(m: Mq, s: Step): seq<seq<int>> {
    if (s.RecvStep? || s.RecvAgainStep?) && m.pool.box != [] then [m.pool.box[0]] else []
  }

  ghost function SentLog(states: seq<Mq>, steps: seq<Step>, n: nat): seq<seq<int>>
    requires |states| == |steps| + 1 && n <= |steps|
  {
    if n == 0 then [] else SentLog(states, steps, n - 1) + SentBy(states[n - 1], steps[n - 1])
  }

  ghost function TakenLog(states: seq<Mq>, steps: seq<Step>, n: nat): seq<seq<int>>
    requires |states| == |steps| + 1 && n <= |steps|
  {
    if n == 0 then [] else TakenLog(states, steps, n - 1) + TakenBy(states[n - 1], steps[n - 1])
  }

  lemma {:induction false} OrderStep(m: Mq, v: Mq, s: Step, sent: seq<seq<int>>, taken: seq<seq<int>>)
    requires DequeStep(m, v, s) && !s.PrependStep? && !s.ResetStep? && sent == taken + m.pool.box
    ensures sent + SentBy(m, s) == taken + TakenBy(m, s) + v.pool.box
  {
    var box := m.pool.box;
    if (s.RecvStep? || s.RecvAgainStep?) && box != [] {
      assert box == [box[0]] + box[1..];
    }
  }

  /** Without urgent messages and resets: what was taken is a prefix of what was sent, and the rest is stored, in order. */
  lemma {:induction false} DeliversInOrder(states: seq<Mq>, steps: seq<Step>, n: nat)
    requires IsRun(states, steps) && Initial(states[0]) && n < |states|
    requires forall k | 0 <= k < n :: !steps[k].PrependStep? && !steps[k].ResetStep?
    ensures SentLog(states, steps, n) == TakenLog(states, steps, n) + states[n].pool.box
  {
    if n > 0 {
      hide IsRun, Initial, DequeStep, SentBy, TakenBy;
      DeliversInOrder(states, steps, n - 1);
      RunDelivers(states, steps, n - 1);
      assert states[n - 1 + 1] == states[n];
      OrderStep(states[n - 1], states[n], steps[n - 1], SentLog(states, steps, n - 1), TakenLog(states, steps, n - 1));
    }
  }

  /** Every stored message and every filled or taken node carries a buffer from `sent`. */
  ghost predicate AllFrom(p: Pool, sent: set<seq<int>>) {
    && (forall b | b in p.box :: b in sent)
    && (forall n | n in p.flying && !p.flying[n].Reserved? :: p.flying[n].bytes in sent)
  }

  ghost function Sent(steps: seq<Step>, n: nat): set<seq<int>>
    requires n <= |steps|
  {
    set k | 0 <= k < n && steps[k].FillStep? :: steps[k].buffer
  }

  lemma {:induction false} PoolFrom(p: Pool, n: nat, buffer: seq<int>, last: bool, sent: set<seq<int>>)
    requires AllFrom(p, sent)
    ensures AllFrom(Reserve(p), sent) && AllFrom(GiveBack(p, n), sent)
    ensures buffer in sent ==> AllFrom(Fill(p, n, buffer, last), sent)
    ensures n in p.flying && !p.flying[n].Reserved? ==> AllFrom(Append(p, n), sent) && AllFrom(Prepend(p, n), sent)
  {
  }

  lemma {:induction false} TakenFrom(p: Pool, q: Pool, sent: set<seq<int>>)
    requires AllFrom(p, sent) && Received(p, q)
    ensures AllFrom(q, sent)
  {
    if p.box != [] {
      assert p.box[0] in p.box && p.box == [p.box[0]] + p.box[1..];
    }
  }

  lemma {:induction false} StepFrom(m: Mq, s: Step, sent: set<seq<int>>)
    requires Inv(m) && Enabled(m, s) && AllFrom(m.pool, sent) && (s.FillStep? ==> s.buffer in sent)
    ensures AllFrom(Next(m, s).pool, sent)
  {
    hide Inv, AllFrom, Append, Prepend, Reserve, GiveBack, Fill, RecvSection, ResetPool;
    NextIsDeque(m, s);
    match s
    case RecvStep(_, _, _) => TakenFrom(m.pool, Next(m, s).pool, sent);
    case RecvAgainStep(_, _, _) => TakenFrom(m.pool, Next(m, s).pool, sent);
    case ResetStep => NoneStored(m.pool, Next(m, s).pool, sent);
    case FillStep(n, buffer, last) => PoolFrom(m.pool, n, buffer, last, sent);
    case AppendStep(n) => PoolFrom(m.pool, n, [], false, sent);
    case PrependStep(n) => PoolFrom(m.pool, n, [], false, sent);
    case GiveBackStep(n) => PoolFrom(m.pool, n, [], false, sent);
    case _ => PoolFrom(m.pool, 0, [], false, sent);
  }

  lemma {:induction false} NoneStored(p: Pool, q: Pool, sent: set<seq<int>>)
    requires AllFrom(p, sent) && q.box == [] && q.flying == p.flying
    ensures AllFrom(q, sent)
  {
  }

  lemma {:induction false} MoreSent(p: Pool, sent: set<seq<int>>, more: set<seq<int>>)
    requires AllFrom(p, sent) && sent <= more
    ensures AllFrom(p, more)
  {
  }

  /** In every run, whatever is stored, or held by a receiver, is a buffer that some sender passed. */
  lemma {:induction false} NothingInvented(states: seq<Mq>, steps: seq<Step>, n: nat)
    requires IsRun(states, steps) && Initial(states[0]) && n < |states|
    ensures AllFrom(states[n].pool, Sent(steps, n))
  {
    if n > 0 {
      RunKeepsInv(states, steps, n - 1);
      hide Inv, Next, Initial, AllFrom, Enabled;
      NothingInvented(states, steps, n - 1);
      assert Enabled(states[n - 1], steps[n - 1]) && states[n - 1 + 1] == Next(states[n - 1], steps[n - 1]);
      MoreSent(states[n - 1].pool, Sent(steps, n - 1), Sent(steps, n));
      StepFrom(states[n - 1], steps[n - 1], Sent(steps, n));
    }
  }
}

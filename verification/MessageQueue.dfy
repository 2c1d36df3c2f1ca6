/**
  The message queue in place: nodes linked through an array, their contents, and the threads
  that wait.  Each method is one interrupts-off section, or the private work between two.
 */
module MessageQueue {
  import opened WaitQueue
  import opened Chains
  import opened MessageQueueSpec
  import opened MessageQueueRuns
  import opened MessageQueueResults

  class Queue {
    const msgSize: nat
    const flag: Flag
    const next: array<int>
    const data: array<seq<int>>
    var head: int
    var tail: int
    var free: int
    var entry: int
    var receivers: seq<Caller>
    var woken: map<nat, Caller>
    var failed: map<nat, Outcome>
    var clock: nat
    ghost var queue: seq<nat>
    ghost var box: seq<seq<int>>
    ghost var freeList: seq<nat>
    ghost var flying: map<nat, Stage>

    ghost function PoolOf(): Pool
      reads this, next, data
    {
      Pool(msgSize, next[..], data[..], head, tail, free, entry, queue, box, freeList, flying)
    }

    ghost function Abs(): Mq
      reads this, next, data
    {
      Mq(PoolOf(), flag, receivers, woken, failed, clock)
    }

    ghost predicate Valid()
      reads this, next, data
    {
      Inv(Abs())
    }

    /** rt_mq_init */
    constructor (msgSize: nat, max: nat, flag: Flag)
      ensures Valid() && Initial(Abs()) && fresh(next) && fresh(data) && next.Length == max
    {
      this.msgSize, this.flag := msgSize, flag;
      next := new int[max];
      data := new seq<int>[max](_ => seq(msgSize, _ => 0));
      head, tail, free, entry := NULL, NULL, NULL, 0;
      receivers, woken, failed, clock := [], map[], map[], 0;
      queue, box, freeList, flying := [], [], [], map[];
      new;
      LinkAll();
      InitOk(msgSize, next[..], data[..], free, freeList);
      hide PoolOk;
      EmptyQueue<()>(flag, 0);
    }

    /** The loop of rt_mq_init that chains all nodes into the free list */
    method LinkAll()
      requires free == NULL && freeList == []
      modifies next, `free, `freeList
      ensures Linked(next[..], free, freeList) && multiset(freeList) == Pool0(next.Length)
    {
      var temp := 0;
      while temp < next.Length
        invariant temp <= next.Length
        invariant multiset(freeList) == Pool0(temp)
        invariant Linked(next[..], free, freeList)
      {
        hide Linked, Pool0;
        OneMore(freeList, temp);
        ghost var before := next[..];
        LinkedCons(before, free, freeList, temp);
        next[temp] := free;
        assert next[..] == before[temp := free];
        free := temp;
        freeList := [temp] + freeList;
        temp := temp + 1;
      }
    }

    /** rt_mq_send and rt_mq_urgent up to the copy: refuse what does not fit, or take a free node. */
    method Begin(buffer: seq<int>) returns (r: Outcome, msg: int)
      requires Valid()
      modifies `free, `freeList, `flying
      ensures r == (if |buffer| > msgSize then Failed else if |old(freeList)| == 0 then Full else Ok)
      ensures r == Failed ==> Abs() == old(Abs())
      ensures r != Failed ==> Abs() == Next(old(Abs()), ReserveStep)
      ensures r == Ok ==> |old(freeList)| > 0 && msg == old(freeList)[0] && msg >= 0 && msg in flying && flying[msg].Reserved?
      ensures Valid()
    {
      hide PoolOk, QueueOk, OnePlace;
      NextKeeps(Abs(), ReserveStep);
      EndsOf(PoolOf());
      msg := NULL;
      if |buffer| > msgSize {
        return Failed, msg;
      }
      msg := free;
      if msg == NULL {
        return Full, msg;
      }
      free := next[msg];
      freeList, flying := freeList[1..], flying[msg := Reserved];
      return Ok, msg;
    }

    /** With interrupts on, the sender fills its own node; rt_mq_send also ends it. */
    method FillNode(msg: nat, buffer: seq<int>, last: bool)
      requires Valid() && Enabled(Abs(), FillStep(msg, buffer, last))
      modifies next, data, `flying
      ensures Valid() && Abs() == Next(old(Abs()), FillStep(msg, buffer, last))
    {
      hide PoolOk, QueueOk, OnePlace;
      ghost var p := PoolOf();
      NextKeeps(Abs(), FillStep(msg, buffer, last));
      NodeInFlight(p, msg);
      if last {
        next[msg] := NULL;
      }
      data[msg] := buffer + data[msg][|buffer|..];
      flying := flying[msg := Filled(buffer, last)];
      assert next[..] == if last then p.next[msg := NULL] else p.next;
      assert data[..] == p.data[msg := buffer + p.data[msg][|buffer|..]];
    }

    /** rt_ipc_list_resume of the first receiver, if there is one */
    method WakeFirst()
      modifies `receivers, `woken
      ensures Abs() == Wake(old(Abs()))
    {
      if receivers != [] {
        woken := woken[receivers[0].tid := receivers[0]];
        receivers := receivers[1..];
      }
    }

    /** rt_mq_send links the message behind the tail. */
    method LinkLast(msg: nat)
      requires PoolOk(PoolOf())
      modifies next, `head, `tail, `entry, `queue, `box, `flying
      ensures PoolOf() == Append(old(PoolOf()), msg)
    {
      hide PoolOk;
      ghost var p := PoolOf();
      EndsOf(p);
      if tail != NULL {
        next[tail] := msg;
      }
      assert next[..] == Append(p, msg).next;
      tail := msg;
      if head == NULL {
        head := msg;
      }
      entry := entry + 1;
      queue, box, flying := queue + [msg], box + [Bytes(p, msg)], flying - {msg};
    }

    /** rt_mq_urgent links the message before the head. */
    method LinkFirst(msg: nat)
      requires IsNode(PoolOf(), msg)
      modifies next, `head, `tail, `entry, `queue, `box, `flying
      ensures PoolOf() == Prepend(old(PoolOf()), msg)
    {
      ghost var p := PoolOf();
      next[msg] := head;
      assert next[..] == Prepend(p, msg).next;
      head := msg;
      if tail == NULL {
        tail := msg;
      }
      entry := entry + 1;
      queue, box, flying := [msg] + queue, [Bytes(p, msg)] + box, flying - {msg};
    }

    /** Second section of rt_mq_send: append the message and wake a receiver. */
    method AppendNode(msg: nat)
      requires Valid() && Enabled(Abs(), AppendStep(msg))
      modifies this, next
      ensures Valid() && Abs() == Next(old(Abs()), AppendStep(msg))
    {
      hide PoolOk, QueueOk, OnePlace, Append;
      NextKeeps(Abs(), AppendStep(msg));
      LinkLast(msg);
      WakeFirst();
    }

    /** Second section of rt_mq_urgent: put the message in front and wake a receiver. */
    method PrependNode(msg: nat)
      requires Valid() && Enabled(Abs(), PrependStep(msg))
      modifies this, next
      ensures Valid() && Abs() == Next(old(Abs()), PrependStep(msg))
    {
      hide PoolOk, QueueOk, OnePlace, Prepend;
      NextKeeps(Abs(), PrependStep(msg));
      NodeInFlight(PoolOf(), msg);
      LinkFirst(msg);
      WakeFirst();
    }

    /** One critical section of rt_mq_recv: take the head, give up, or wait. */
    method Receive(w: Caller) returns (r: Outcome, msg: int)
      requires PoolOk(PoolOf())
      modifies this
      ensures Abs() == RecvSection(old(Abs()), w).0 && r == RecvSection(old(Abs()), w).1
      ensures r == Ok ==> |old(queue)| > 0 && |old(box)| > 0 && msg == old(queue)[0] >= 0 && msg in flying && flying[msg] == Taken(old(box)[0])
    {
      hide PoolOk, Enqueue;
      ghost var p := PoolOf();
      EndsOf(p);
      msg := NULL;
      if entry == 0 {
        if w.timeout == 0 {
          return TimedOut, msg;
        }
        receivers := Suspend(flag, receivers, w.(stamp := clock));
        clock := clock + 1;
        return Blocked, msg;
      }
      hide Pop;
      PopKeeps(p);
      msg := TakeHead();
      return Ok, msg;
    }

    /** rt_mq_recv unlinks the head. */
    method TakeHead() returns (msg: int)
      requires PoolOk(PoolOf()) && entry != 0
      modifies `head, `tail, `entry, `queue, `box, `flying
      ensures PoolOf() == Pop(old(PoolOf())) && msg == old(head)
    {
      hide PoolOk;
      EndsOf(PoolOf());
      msg := head;
      head := next[msg];
      if tail == msg {
        tail := NULL;
      }
      entry := entry - 1;
      flying := flying[msg := Taken(box[0])];
      queue, box := queue[1..], box[1..];
    }

    /** A thread calls rt_mq_recv. */
    method Recv(t: nat, prio: nat, timeout: int) returns (r: Outcome, msg: int)
      requires Valid() && Enabled(Abs(), RecvStep(t, prio, timeout))
      modifies this
      ensures Valid() && Abs() == Next(old(Abs()), RecvStep(t, prio, timeout))
      ensures r == (if old(queue) != [] then Ok else if timeout == 0 then TimedOut else Blocked)
      ensures r == Ok ==> |old(queue)| > 0 && |old(box)| > 0 && msg == old(queue)[0] >= 0 && msg in flying && flying[msg] == Taken(old(box)[0])
    {
      hide PoolOk, QueueOk, OnePlace, RecvSection;
      RecvAnswers(Abs(), Waiter(t, prio, 0, timeout, ()));
      NextKeeps(Abs(), RecvStep(t, prio, timeout));
      r, msg := Receive(Waiter(t, prio, 0, timeout, ()));
    }

    /** A woken receiver runs again. */
    method RecvAgain(t: nat, prio: nat, elapsed: nat) returns (r: Outcome, msg: int)
      requires Valid() && Enabled(Abs(), RecvAgainStep(t, prio, elapsed))
      modifies this
      ensures Valid() && Abs() == Next(old(Abs()), RecvAgainStep(t, prio, elapsed))
      ensures t in old(woken) && r == (if old(queue) != [] then Ok
                                       else if Remaining(old(woken)[t].timeout, elapsed) == 0 then TimedOut else Blocked)
      ensures r == Ok ==> |old(queue)| > 0 && |old(box)| > 0 && msg == old(queue)[0] >= 0 && msg in flying && flying[msg] == Taken(old(box)[0])
    {
      hide PoolOk, QueueOk, OnePlace, RecvSection;
      NextKeeps(Abs(), RecvAgainStep(t, prio, elapsed));
      var w := woken[t];
      RecvAnswers(Abs().(woken := woken - {t}), w.(prio := prio, timeout := Remaining(w.timeout, elapsed)));
      woken := woken - {t};
      r, msg := Receive(w.(prio := prio, timeout := Remaining(w.timeout, elapsed)));
    }

    /** With interrupts on, the receiver copies its message out. */
    method Copy(msg: nat, size: nat) returns (buffer: seq<int>)
      requires Valid() && msg in flying && flying[msg].Taken?
      ensures |buffer| == if size > msgSize then msgSize else size
      ensures
        var sent := flying[msg].bytes;
        if |sent| <= |buffer| then sent <= buffer else buffer <= sent
    {
      NodeInFlight(PoolOf(), msg);
      assert FlyingOk(PoolOf()) && DataOk(PoolOf());
      hide PoolOk, QueueOk, OnePlace;
      assert flying[msg].bytes <= data[msg];
      buffer := data[msg][..if size > msgSize then msgSize else size];
    }

    /** Second section of rt_mq_recv: give the node back. */
    method GiveNodeBack(msg: nat)
      requires Valid() && Enabled(Abs(), GiveBackStep(msg))
      modifies next, `free, `freeList, `flying
      ensures Valid() && Abs() == Next(old(Abs()), GiveBackStep(msg))
    {
      hide PoolOk, QueueOk, OnePlace;
      ghost var p := PoolOf();
      NextKeeps(Abs(), GiveBackStep(msg));
      NodeInFlight(p, msg);
      next[msg] := free;
      free := msg;
      freeList, flying := [msg] + freeList, flying - {msg};
      assert PoolOf() == GiveBack(p, msg);
    }

    /** The timer of a waiting receiver expires. */
    method Timeout(i: nat)
      requires Valid() && Enabled(Abs(), TimerStep(i))
      modifies `receivers, `failed
      ensures Valid() && Abs() == Next(old(Abs()), TimerStep(i))
    {
      hide PoolOk, QueueOk, OnePlace;
      NextKeeps(Abs(), TimerStep(i));
      failed := failed[receivers[i].tid := TimedOut];
      receivers := Without(receivers, i);
    }

    /** rt_mq_control with RT_IPC_CMD_RESET */
    method Reset()
      requires Valid()
      modifies this, next
      ensures Valid() && Abs() == Next(old(Abs()), ResetStep)
      ensures queue == [] && flying == old(flying) && freeList == Reverse(old(queue)) + old(freeList)
    {
      hide PoolOk, QueueOk, OnePlace, Reverse;
      NextKeeps(Abs(), ResetStep);
      MessageQueueSpec.ResetKeeps(PoolOf());
      FailReceivers();
      Drain();
    }

    /** rt_ipc_list_resume_all */
    method FailReceivers()
      modifies `receivers, `failed
      ensures receivers == [] && failed == FailAll(old(failed), old(receivers))
    {
      while receivers != []
        invariant FailAll(failed, receivers) == FailAll(old(failed), old(receivers))
        decreases |receivers|
      {
        failed := failed[receivers[0].tid := Failed];
        receivers := receivers[1..];
      }
    }

    /** The loop of the reset: every queued node goes to the free list. */
    method Drain()
      requires PoolOk(PoolOf())
      modifies next, `head, `tail, `free, `entry, `queue, `box, `freeList
      ensures PoolOf() == ResetPool(old(PoolOf()))
    {
      hide PoolOk;
      ghost var p := PoolOf();
      while head != NULL
        invariant PoolOk(PoolOf()) && ResetPool(PoolOf()) == ResetPool(p)
        decreases |queue|
      {
        hide ResetPool;
        DrainOne();
      }
      EndsOf(PoolOf());
      entry := 0;
    }

    /** One turn; the source leaves `entry` to the end of the loop, where it becomes 0. */
    method DrainOne()
      requires PoolOk(PoolOf()) && head != NULL
      modifies next, `head, `tail, `free, `entry, `queue, `box, `freeList
      ensures PoolOk(PoolOf()) && |queue| < |old(queue)| && ResetPool(PoolOf()) == ResetPool(old(PoolOf()))
    {
      ghost var p := PoolOf();
      EndsOf(p);
      Recycled(p);
      assert ResetPool(p) == ResetPool(GiveBack(Pop(p), p.head));
      hide PoolOk, ResetPool;
      var msg := head;
      head := next[msg];
      if tail == msg {
        tail := NULL;
      }
      next[msg] := free;
      free := msg;
      entry := entry - 1;
      queue, box, freeList := queue[1..], box[1..], [queue[0]] + freeList;
      assert PoolOf() == GiveBack(Pop(p), p.head);
    }
  }

  lemma {:induction false} NodeInFlight(p: Pool, n: nat)
    requires PoolOk(p) && n in p.flying
    ensures IsNode(p, n) && |p.data[n]| == p.msgSize
  {
    Apart(p.queue, p.freeList, p.flying.Keys, |p.next|, n);
  }

  lemma {:induction false} OneMore(s: seq<nat>, n: nat)
    requires multiset(s) == Pool0(n)
    ensures n !in s && multiset([n] + s) == Pool0(n + 1)
  {
    Pool0Counts(n, n);
    assert n !in multiset(s);
    assert multiset([n] + s) == multiset{n} + multiset(s);
  }
}

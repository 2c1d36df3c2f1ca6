/**
  The mailbox in place: a ring buffer, two wait lists and the threads it has woken.
  Each method is one critical section, proved to be the step of MailboxSpec.
 */
module Mailbox {
  import opened WaitQueue
  import opened MailboxSpec
  import opened MailboxResults

  class Mailbox {
    const flag: Flag
    const size: nat
    const pool: array<int>
    var entry: nat
    var inOffset: nat
    var outOffset: nat
    var receivers: seq<Caller>
    var senders: seq<Caller>
    var wokenR: map<nat, Caller>
    var wokenS: map<nat, Caller>
    var failed: map<nat, Outcome>
    var clock: nat
    ghost var sent: seq<int>
    ghost var got: seq<int>

    /** The mails in the ring, oldest first */
    ghost function Mails(): (m: seq<int>)
      reads `entry, `inOffset, `outOffset, pool
      requires RingOk()
      ensures |m| == entry
    {
      if outOffset + entry <= size then pool[outOffset..outOffset + entry]
      else pool[outOffset..] + pool[..outOffset + entry - size]
    }

    ghost predicate RingOk()
      reads `entry, `inOffset, `outOffset
    {
      && pool.Length == size && entry <= size
      && (if size == 0 then outOffset == 0 else outOffset < size)
      && inOffset == (if outOffset + entry < size then outOffset + entry else outOffset + entry - size)
    }

    ghost function Abs(): Box
      reads this, pool
      requires RingOk()
    {
      Box(flag, size, Mails(), receivers, senders, wokenR, wokenS, failed, clock, sent, got)
    }

    ghost predicate Valid()
      reads this, pool
    {
      RingOk() && Inv(Abs())
    }

    /** rt_mb_init */
    constructor (flag: Flag, size: nat)
      ensures Valid() && fresh(pool) && Abs() == Init(flag, size)
    {
      this.flag, this.size := flag, size;
      pool := new int[size];
      entry, inOffset, outOffset := 0, 0, 0;
      receivers, senders, clock := [], [], 0;
      wokenR, wokenS, failed := map[], map[], map[];
      sent, got := [], [];
      new;
      InitInv(flag, size);
    }

    /** Write one mail at the input offset. */
    method Put(v: int)
      requires RingOk() && entry != size
      modifies pool, `inOffset, `entry
      ensures RingOk() && Mails() == old(Mails()) + [v] && entry == old(entry) + 1
    {
      pool[inOffset] := v;
      inOffset := inOffset + 1;
      if inOffset >= size {
        inOffset := 0;
      }
      entry := entry + 1;
    }

    /** Read one mail at the output offset. */
    method Get() returns (v: int)
      requires RingOk() && entry != 0
      modifies `outOffset, `entry
      ensures RingOk() && |old(Mails())| > 0 && v == old(Mails())[0] && Mails() == old(Mails())[1..]
    {
      ghost var m := Mails();
      v := pool[outOffset];
      outOffset := outOffset + 1;
      if outOffset >= size {
        outOffset := 0;
      }
      entry := entry - 1;
      assert |Mails()| == |m| - 1;
    }

    /** One critical section of rt_mb_send_wait */
    method SendSection(w: Caller) returns (r: Outcome)
      requires RingOk()
      modifies this, pool
      ensures RingOk()
      ensures Abs() == MailboxSpec.SendSection(old(Abs()), w).0
      ensures r == MailboxSpec.SendSection(old(Abs()), w).1
    {
      hide Mails, RingOk, Enqueue;
      if entry == size {
        if w.timeout == 0 {
          return Full;
        }
        senders := Suspend(flag, senders, w.(stamp := clock));
        clock := clock + 1;
        return Blocked;
      }
      Put(w.info);
      sent := sent + [w.info];
      if receivers != [] {
        wokenR := wokenR[receivers[0].tid := receivers[0]];
        receivers := receivers[1..];
      }
      return Ok;
    }

    /** One critical section of rt_mb_recv */
    method RecvSection(w: Caller) returns (r: Outcome, v: int)
      requires RingOk()
      modifies this, pool
      ensures RingOk()
      ensures Abs() == MailboxSpec.RecvSection(old(Abs()), w).0
      ensures r == MailboxSpec.RecvSection(old(Abs()), w).1
      ensures r == Ok ==> old(Mails()) != [] && v == old(Mails())[0]
    {
      hide Mails, RingOk, Enqueue;
      v := 0;
      if entry == 0 {
        if w.timeout == 0 {
          return TimedOut, v;
        }
        receivers := Suspend(flag, receivers, w.(stamp := clock));
        clock := clock + 1;
        return Blocked, v;
      }
      v := Get();
      got := got + [v];
      if senders != [] {
        wokenS := wokenS[senders[0].tid := senders[0]];
        senders := senders[1..];
      }
      return Ok, v;
    }

    /** A thread calls rt_mb_send_wait. */
    method Send(t: nat, prio: nat, v: int, timeout: int) returns (r: Outcome)
      requires Valid() && Enabled(Abs(), Step.Send(t, prio, v, timeout))
      modifies this, pool
      ensures Valid() && Abs() == Next(old(Abs()), Step.Send(t, prio, v, timeout))
      ensures r == (if |old(Mails())| < size then Ok else if timeout == 0 then Full else Blocked)
    {
      assert |Abs().mails| <= size;
      hide Inv, MailboxSpec.SendSection, MailboxSpec.RecvSection, Mails;
      SendAnswers(Abs(), Waiter(t, prio, 0, timeout, v));
      NextKeeps(Abs(), Step.Send(t, prio, v, timeout));
      r := SendSection(Waiter(t, prio, 0, timeout, v));
    }

    /** A thread calls rt_mb_recv. */
    method Recv(t: nat, prio: nat, timeout: int) returns (r: Outcome, v: int)
      requires Valid() && Enabled(Abs(), Step.Recv(t, prio, timeout))
      modifies this, pool
      ensures Valid() && Abs() == Next(old(Abs()), Step.Recv(t, prio, timeout))
      ensures r == (if old(Mails()) != [] then Ok else if timeout == 0 then TimedOut else Blocked)
      ensures r == Ok ==> old(Mails()) != [] && v == old(Mails())[0]
    {
      hide Inv, MailboxSpec.SendSection, MailboxSpec.RecvSection, Mails;
      RecvAnswers(Abs(), Waiter(t, prio, 0, timeout, 0));
      NextKeeps(Abs(), Step.Recv(t, prio, timeout));
      r, v := RecvSection(Waiter(t, prio, 0, timeout, 0));
    }

    /** A woken sender runs again: it charges the time it slept and retries. */
    method SendAgain(t: nat, prio: nat, elapsed: nat) returns (r: Outcome)
      requires Valid() && Enabled(Abs(), Step.SendAgain(t, prio, elapsed))
      modifies this, pool
      ensures Valid() && Abs() == Next(old(Abs()), Step.SendAgain(t, prio, elapsed))
      ensures t in old(wokenS) && r == (if |old(Mails())| < size then Ok
                                        else if Remaining(old(wokenS)[t].timeout, elapsed) == 0 then Full else Blocked)
    {
      assert |Abs().mails| <= size;
      hide Inv, MailboxSpec.SendSection, MailboxSpec.RecvSection, Mails;
      NextKeeps(Abs(), Step.SendAgain(t, prio, elapsed));
      var w := wokenS[t];
      SendAnswers(Abs().(wokenS := wokenS - {t}), w.(prio := prio, timeout := Remaining(w.timeout, elapsed)));
      wokenS := wokenS - {t};
      r := SendSection(w.(prio := prio, timeout := Remaining(w.timeout, elapsed)));
    }

    /** A woken receiver runs again. */
    method RecvAgain(t: nat, prio: nat, elapsed: nat) returns (r: Outcome, v: int)
      requires Valid() && Enabled(Abs(), Step.RecvAgain(t, prio, elapsed))
      modifies this, pool
      ensures Valid() && Abs() == Next(old(Abs()), Step.RecvAgain(t, prio, elapsed))
      ensures t in old(wokenR) && r == (if old(Mails()) != [] then Ok
                                        else if Remaining(old(wokenR)[t].timeout, elapsed) == 0 then TimedOut else Blocked)
      ensures r == Ok ==> old(Mails()) != [] && v == old(Mails())[0]
    {
      hide Inv, MailboxSpec.SendSection, MailboxSpec.RecvSection, Mails;
      NextKeeps(Abs(), Step.RecvAgain(t, prio, elapsed));
      var w := wokenR[t];
      RecvAnswers(Abs().(wokenR := wokenR - {t}), w.(prio := prio, timeout := Remaining(w.timeout, elapsed)));
      wokenR := wokenR - {t};
      r, v := RecvSection(w.(prio := prio, timeout := Remaining(w.timeout, elapsed)));
    }

    /** The timer of a waiting sender expires. */
    method SenderTimeout(i: nat)
      requires Valid() && Enabled(Abs(), TimerOfSender(i))
      modifies this
      ensures Valid() && Abs() == Next(old(Abs()), TimerOfSender(i))
    {
      hide Inv, Mails;
      NextKeeps(Abs(), TimerOfSender(i));
      failed := failed[senders[i].tid := TimedOut];
      senders := Without(senders, i);
    }

    /** The timer of a waiting receiver expires. */
    method ReceiverTimeout(i: nat)
      requires Valid() && Enabled(Abs(), TimerOfReceiver(i))
      modifies this
      ensures Valid() && Abs() == Next(old(Abs()), TimerOfReceiver(i))
    {
      hide Inv, Mails;
      NextKeeps(Abs(), TimerOfReceiver(i));
      failed := failed[receivers[i].tid := TimedOut];
      receivers := Without(receivers, i);
    }

    /** A thread whose wait failed returns its error. */
    method FailedReturn(t: nat) returns (r: Outcome)
      requires Valid() && Enabled(Abs(), Step.Return(t))
      modifies this
      ensures Valid() && Abs() == Next(old(Abs()), Step.Return(t))
      ensures t in old(failed) && r == old(failed)[t]
    {
      hide Inv, Mails;
      NextKeeps(Abs(), Step.Return(t));
      r := failed[t];
      failed := failed - {t};
    }

    /** rt_mb_control with RT_IPC_CMD_RESET */
    method Reset()
      requires Valid()
      modifies this
      ensures Valid() && Abs() == Next(old(Abs()), Step.Reset)
    {
      hide Inv;
      NextKeeps(Abs(), Step.Reset);
      FailLists();
      entry, inOffset, outOffset := 0, 0, 0;
      sent, got := [], [];
    }

    /** rt_ipc_list_resume_all on both lists */
    method FailLists()
      modifies `receivers, `senders, `failed
      ensures receivers == [] && senders == []
      ensures failed == FailAll(FailAll(old(failed), old(receivers)), old(senders))
    {
      ghost var f := failed;
      while receivers != []
        invariant FailAll(failed, receivers) == FailAll(f, old(receivers))
        invariant senders == old(senders)
        decreases |receivers|
      {
        failed := failed[receivers[0].tid := Failed];
        receivers := receivers[1..];
      }
      f := failed;
      while senders != []
        invariant receivers == [] && FailAll(failed, senders) == FailAll(f, old(senders))
        decreases |senders|
      {
        failed := failed[senders[0].tid := Failed];
        senders := senders[1..];
      }
    }
  }
}

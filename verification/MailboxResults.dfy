/** What each section of the mailbox answers and changes. */
module MailboxResults {
  import opened WaitQueue
  import opened MailboxSpec

  /** The threads inside calls are the same, but for those that the arguments name. */
  ghost predicate SameThreads(b: Box, v: Box) {
    v.receivers == b.receivers && v.senders == b.senders && v.wokenR == b.wokenR && v.wokenS == b.wokenS && v.failed == b.failed
  }

  /** The first thread of the list, if there is one, leaves it and is about to run again. */
  ghost predicate FirstWoken(q: seq<Caller>, rest: seq<Caller>, woken: map<nat, Caller>, after: map<nat, Caller>) {
    if q == [] then rest == [] && after == woken
    else
      && (forall w :: w in rest <==> w in q && w.tid != q[0].tid)
      && q[0].tid in after && after[q[0].tid] == q[0] && (forall t | t != q[0].tid :: t in after <==> t in woken)
      && (forall t | t != q[0].tid && t in woken :: after[t] == woken[t])
  }

  lemma {:induction false} WakesFirst(flag: Flag, clock: nat, q: seq<Caller>, woken: map<nat, Caller>)
    requires QueueOk(flag, clock, q) && q != []
    ensures FirstWoken(q, q[1..], woken, woken[q[0].tid := q[0]])
  {
    assert Without(q, 0) == q[1..];
    WithoutFacts(flag, q, 0, clock);
    hide QueueOk, Without;
  }

  // ---------------------------------------------------------------------------------
  // Senders
  // ---------------------------------------------------------------------------------

  /** A sender stores its mail exactly if there is room; otherwise it gives up exactly if its time is used up. */
  lemma {:induction false} SendAnswers(b: Box, w: Caller)
    requires |b.mails| <= b.size
    ensures
      var r := SendSection(b, w).1;
      && (r == Ok <==> |b.mails| < b.size)
      && (r == Full <==> |b.mails| == b.size && w.timeout == 0)
      && (r == Blocked <==> |b.mails| == b.size && w.timeout != 0)
  {
    hide Enqueue;
  }

  /** A mail that is stored is the last, and wakes the first suspended receiver. */
  lemma {:induction false} SendStores(b: Box, w: Caller)
    requires QueueOk(b.flag, b.clock, b.receivers) && SendSection(b, w).1 == Ok
    ensures
      var v := SendSection(b, w).0;
      && v.mails == b.mails + [w.info] && v.sent == b.sent + [w.info] && v.got == b.got
      && FirstWoken(b.receivers, v.receivers, b.wokenR, v.wokenR)
      && v.senders == b.senders && v.wokenS == b.wokenS && v.failed == b.failed && v.size == b.size
  {
    if b.receivers != [] {
      WakesFirst(b.flag, b.clock, b.receivers, b.wokenR);
    }
    hide QueueOk, Enqueue, FirstWoken;
    if b.receivers == [] {
      NobodyWoken(b.wokenR);
    }
  }

  lemma {:induction false} NobodyWoken(woken: map<nat, Caller>)
    ensures FirstWoken([], [], woken, woken)
  {
  }

  /** A sender that gives up changes nothing; one that blocks joins the suspended senders with its mail and the time it has left. */
  lemma {:induction false} SendWaits(b: Box, w: Caller)
    ensures
      var (v, r) := SendSection(b, w);
      && (r == Full ==> v == b)
      && (r == Blocked ==>
           && v == b.(senders := v.senders, clock := b.clock + 1)
           && (forall x :: x in v.senders <==> x in b.senders || x == w.(stamp := b.clock)))
  {
    EnqueueMembers(b.flag, b.senders, w.(stamp := b.clock));
    hide Enqueue;
  }

  // ---------------------------------------------------------------------------------
  // Receivers
  // ---------------------------------------------------------------------------------

  /** A receiver takes a mail exactly if there is one; otherwise it gives up exactly if its time is used up. */
  lemma {:induction false} RecvAnswers(b: Box, w: Caller)
    ensures
      var r := RecvSection(b, w).1;
      && (r == Ok <==> b.mails != [])
      && (r == TimedOut <==> b.mails == [] && w.timeout == 0)
      && (r == Blocked <==> b.mails == [] && w.timeout != 0)
  {
    hide Enqueue;
  }

  /** The mail that is taken is the oldest, and wakes the first suspended sender. */
  lemma {:induction false} RecvTakes(b: Box, w: Caller)
    requires QueueOk(b.flag, b.clock, b.senders) && RecvSection(b, w).1 == Ok
    ensures
      var v := RecvSection(b, w).0;
      && b.mails != [] && b.mails == [b.mails[0]] + v.mails && v.got == b.got + [b.mails[0]] && v.sent == b.sent
      && FirstWoken(b.senders, v.senders, b.wokenS, v.wokenS)
      && v.receivers == b.receivers && v.wokenR == b.wokenR && v.failed == b.failed && v.size == b.size
  {
    if b.senders != [] {
      WakesFirst(b.flag, b.clock, b.senders, b.wokenS);
    }
    hide QueueOk, Enqueue, FirstWoken;
    if b.senders == [] {
      NobodyWoken(b.wokenS);
    }
  }

  lemma {:induction false} RecvWaits(b: Box, w: Caller)
    ensures
      var (v, r) := RecvSection(b, w);
      && (r == TimedOut ==> v == b)
      && (r == Blocked ==>
           && v == b.(receivers := v.receivers, clock := b.clock + 1)
           && (forall x :: x in v.receivers <==> x in b.receivers || x == w.(stamp := b.clock)))
  {
    EnqueueMembers(b.flag, b.receivers, w.(stamp := b.clock));
    hide Enqueue;
  }

  // ---------------------------------------------------------------------------------
  // Wake-ups, timeouts and resets
  // ---------------------------------------------------------------------------------

  lemma {:induction false} SendStoresMail(b: Box, w: Caller)
    ensures |b.mails| != b.size ==> SendSection(b, w).0.mails == b.mails + [w.info] && SendSection(b, w).0.wokenS == b.wokenS
  {
  }

  lemma {:induction false} RecvTakesMail(b: Box, w: Caller)
    ensures b.mails != [] ==> b.mails == [b.mails[0]] + RecvSection(b, w).0.mails && RecvSection(b, w).0.wokenR == b.wokenR
  {
  }

  /**
    A woken sender that finds the box full again gives up exactly if it has slept for as long as
    it had left, and otherwise waits for the rest of that time; if there is room, its mail is stored.
   */
  lemma {:induction false} SenderRetries(b: Box, t: nat, prio: nat, elapsed: nat)
    requires Inv(b) && t in b.wokenS
    ensures
      var v, w := Next(b, SendAgain(t, prio, elapsed)), b.wokenS[t];
      && (|b.mails| < b.size ==> v.mails == b.mails + [w.info] && t !in v.wokenS)
      && (|b.mails| == b.size && (w.timeout == 0 || 0 < w.timeout <= elapsed) ==> v == b.(wokenS := b.wokenS - {t}))
      && (|b.mails| == b.size && (w.timeout < 0 || elapsed < w.timeout) ==>
           && v.mails == b.mails && t !in v.wokenS
           && w.(prio := prio, stamp := b.clock, timeout := if w.timeout < 0 then w.timeout else w.timeout - elapsed) in v.senders)
  {
    assert |b.mails| <= b.size;
    hide Inv, SendSection, Remaining;
    var w := b.wokenS[t];
    var b1, w1 := b.(wokenS := b.wokenS - {t}), w.(prio := prio, timeout := Remaining(w.timeout, elapsed));
    RemainingEnds(w.timeout, elapsed);
    SendAnswers(b1, w1);
    SendWaits(b1, w1);
    SendStoresMail(b1, w1);
  }

  lemma {:induction false} ReceiverRetries(b: Box, t: nat, prio: nat, elapsed: nat)
    requires Inv(b) && t in b.wokenR
    ensures
      var v, w := Next(b, RecvAgain(t, prio, elapsed)), b.wokenR[t];
      && (b.mails != [] ==> b.mails == [b.mails[0]] + v.mails && t !in v.wokenR)
      && (b.mails == [] && (w.timeout == 0 || 0 < w.timeout <= elapsed) ==> v == b.(wokenR := b.wokenR - {t}))
      && (b.mails == [] && (w.timeout < 0 || elapsed < w.timeout) ==>
           && v.mails == [] && t !in v.wokenR
           && w.(prio := prio, stamp := b.clock, timeout := if w.timeout < 0 then w.timeout else w.timeout - elapsed) in v.receivers)
  {
    hide Inv, RecvSection, Remaining;
    var w := b.wokenR[t];
    var b1, w1 := b.(wokenR := b.wokenR - {t}), w.(prio := prio, timeout := Remaining(w.timeout, elapsed));
    RemainingEnds(w.timeout, elapsed);
    RecvAnswers(b1, w1);
    RecvWaits(b1, w1);
    RecvTakesMail(b1, w1);
  }

  /** A timeout fails one suspended thread and changes nothing else. */
  lemma {:induction false} TimeoutFails(b: Box, i: nat)
    requires Inv(b)
    ensures i < |b.senders| ==>
      var v := ExpireS(b, i);
      && v == b.(senders := v.senders, failed := b.failed[b.senders[i].tid := TimedOut])
      && (forall w :: w in v.senders <==> w in b.senders && w.tid != b.senders[i].tid)
    ensures i < |b.receivers| ==>
      var v := ExpireR(b, i);
      && v == b.(receivers := v.receivers, failed := b.failed[b.receivers[i].tid := TimedOut])
      && (forall w :: w in v.receivers <==> w in b.receivers && w.tid != b.receivers[i].tid)
  {
    if i < |b.senders| {
      WithoutFacts(b.flag, b.senders, i, b.clock);
    }
    if i < |b.receivers| {
      WithoutFacts(b.flag, b.receivers, i, b.clock);
    }
    hide Inv, Without;
  }

  /** A reset empties the box and fails every suspended thread. */
  lemma {:induction false} ResetFails(b: Box, t: nat)
    ensures
      var v := ResetBox(b);
      && v.mails == [] && v.receivers == [] && v.senders == [] && v.wokenR == b.wokenR && v.wokenS == b.wokenS && v.size == b.size
      && (t in Tids(b.receivers) + Tids(b.senders) ==> t in v.failed && v.failed[t] == Failed)
      && (t !in Tids(b.receivers) + Tids(b.senders) ==> (t in v.failed <==> t in b.failed) && (t in b.failed ==> v.failed[t] == b.failed[t]))
  {
    FailAllValues(b.failed, b.receivers, t);
    FailAllValues(FailAll(b.failed, b.receivers), b.senders, t);
    hide FailAll, Tids;
  }
}

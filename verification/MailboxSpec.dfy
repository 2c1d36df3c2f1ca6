/**
  The mailbox as a state machine.

  One step is one stretch of code that runs with interrupts off: the critical section a
  thread enters when it calls, the one it enters again after it has been woken, the expiry of
  a waiting thread's timer, the return of a thread whose wait failed, and a reset.  Between a
  thread's wake-up and its next section other threads take any number of steps.
 */
module MailboxSpec {
  import opened WaitQueue

  type Caller = Waiter<int>   // `info` is the mail to send; a receiver's is not used

  datatype Box = Box(
    flag: Flag,
    size: nat,
    mails: seq<int>,                // the mails stored, oldest first
    receivers: seq<Caller>,         // suspended because the box was empty
    senders: seq<Caller>,           // suspended because the box was full
    wokenR: map<nat, Caller>,       // receivers resumed without error that have not run yet
    wokenS: map<nat, Caller>,       // senders resumed without error that have not run yet
    failed: map<nat, Outcome>,      // threads resumed with an error that have not returned yet
    clock: nat,                     // stamps given out so far
    sent: seq<int>,                 // mails stored since the last reset
    got: seq<int>                   // mails taken since the last reset
  )

  /** The threads inside a call on this mailbox */
  ghost function Busy(b: Box): set<nat> {
    Tids(b.receivers) + Tids(b.senders) + b.wokenR.Keys + b.wokenS.Keys + b.failed.Keys
  }

  /** The critical section of rt_mb_send_wait, on entry and after each wake-up */
  function SendSection(b: Box, w: Caller): (Box, Outcome) {
    if |b.mails| == b.size then
      if w.timeout == 0 then (b, Full)
      else (b.(senders := Enqueue(b.flag, b.senders, w.(stamp := b.clock)), clock := b.clock + 1), Blocked)
    else
      var b1 := b.(mails := b.mails + [w.info], sent := b.sent + [w.info]);
      if b.receivers == [] then (b1, Ok)
      else
        var r := b.receivers[0];
        (b1.(receivers := b.receivers[1..], wokenR := b.wokenR[r.tid := r]), Ok)
  }

  /** The critical section of rt_mb_recv, on entry and after each wake-up */
  function RecvSection(b: Box, w: Caller): (Box, Outcome) {
    if |b.mails| == 0 then
      if w.timeout == 0 then (b, TimedOut)
      else (b.(receivers := Enqueue(b.flag, b.receivers, w.(stamp := b.clock)), clock := b.clock + 1), Blocked)
    else
      var b1 := b.(mails := b.mails[1..], got := b.got + [b.mails[0]]);
      if b.senders == [] then (b1, Ok)
      else
        var s := b.senders[0];
        (b1.(senders := b.senders[1..], wokenS := b.wokenS[s.tid := s]), Ok)
  }

  /** rt_thread_timeout of a waiting thread */
  function ExpireR(b: Box, i: nat): Box
    requires i < |b.receivers|
  {
    b.(receivers := Without(b.receivers, i), failed := b.failed[b.receivers[i].tid := TimedOut])
  }

  function ExpireS(b: Box, i: nat): Box
    requires i < |b.senders|
  {
    b.(senders := Without(b.senders, i), failed := b.failed[b.senders[i].tid := TimedOut])
  }

  /** rt_mb_control with RT_IPC_CMD_RESET */
  function ResetBox(b: Box): Box {
    b.(mails := [], receivers := [], senders := [], sent := [], got := [],
       failed := FailAll(FailAll(b.failed, b.receivers), b.senders))
  }

  datatype Step =
    | Send(tid: nat, prio: nat, mail: int, timeout: int)
    | Recv(tid: nat, prio: nat, timeout: int)
    | SendAgain(tid: nat, prio: nat, elapsed: nat)
    | RecvAgain(tid: nat, prio: nat, elapsed: nat)
    | TimerOfSender(i: nat)
    | TimerOfReceiver(i: nat)
    | Return(tid: nat)
    | Reset

  ghost predicate Enabled(b: Box, s: Step) {
    match s
    case Send(t, _, _, _) => t !in Busy(b)
    case Recv(t, _, _) => t !in Busy(b)
    case SendAgain(t, _, _) => t in b.wokenS
    case RecvAgain(t, _, _) => t in b.wokenR
    case TimerOfSender(i) => i < |b.senders| && b.senders[i].timeout > 0
    case TimerOfReceiver(i) => i < |b.receivers| && b.receivers[i].timeout > 0
    case Return(t) => t in b.failed
    case Reset => true
  }

  ghost function Next(b: Box, s: Step): Box
    requires Enabled(b, s)
  {
    match s
    case Send(t, p, v, timeout) => SendSection(b, Waiter(t, p, 0, timeout, v)).0
    case Recv(t, p, timeout) => RecvSection(b, Waiter(t, p, 0, timeout, 0)).0
    case SendAgain(t, p, elapsed) =>
      var w := b.wokenS[t];
      SendSection(b.(wokenS := b.wokenS - {t}), w.(prio := p, timeout := Remaining(w.timeout, elapsed))).0
    case RecvAgain(t, p, elapsed) =>
      var w := b.wokenR[t];
      RecvSection(b.(wokenR := b.wokenR - {t}), w.(prio := p, timeout := Remaining(w.timeout, elapsed))).0
    case TimerOfSender(i) => ExpireS(b, i)
    case TimerOfReceiver(i) => ExpireR(b, i)
    case Return(t) => b.(failed := b.failed - {t})
    case Reset => ResetBox(b)
  }

  // ---------------------------------------------------------------------------------
  // What every step keeps
  // ---------------------------------------------------------------------------------

  /** The five places are pairwise disjoint. */
  ghost predicate Apart(r: set<nat>, s: set<nat>, wr: set<nat>, ws: set<nat>, f: set<nat>) {
    && r !! s && r !! wr && r !! ws && r !! f
    && s !! wr && s !! ws && s !! f
    && wr !! ws && wr !! f && ws !! f
  }

  lemma {:induction false} ApartWake(r: set<nat>, s: set<nat>, wr: set<nat>, ws: set<nat>, f: set<nat>, t: nat)
    requires Apart(r, s, wr, ws, f)
    ensures t in r ==> Apart(r - {t}, s, wr + {t}, ws, f) && Apart(r - {t}, s, wr, ws, f + {t}) && t !in wr
    ensures t in s ==> Apart(r, s - {t}, wr, ws + {t}, f) && Apart(r, s - {t}, wr, ws, f + {t}) && t !in ws
  {
  }

  lemma {:induction false} ApartEnter(r: set<nat>, s: set<nat>, wr: set<nat>, ws: set<nat>, f: set<nat>, t: nat)
    requires Apart(r, s, wr, ws, f) && t !in r + s + wr + ws + f
    ensures Apart(r + {t}, s, wr, ws, f) && Apart(r, s + {t}, wr, ws, f)
  {
  }

  lemma {:induction false} ApartLeave(r: set<nat>, s: set<nat>, wr: set<nat>, ws: set<nat>, f: set<nat>, t: nat)
    requires Apart(r, s, wr, ws, f)
    ensures Apart(r, s, wr - {t}, ws, f) && Apart(r, s, wr, ws - {t}, f) && Apart(r, s, wr, ws, f - {t})
    ensures t in wr ==> t !in r + s + (wr - {t}) + ws + f
    ensures t in ws ==> t !in r + s + wr + (ws - {t}) + f
  {
  }

  ghost predicate KeyedByTid(m: map<nat, Caller>) {
    forall t :: t in m ==> m[t].tid == t
  }

  /** A thread is in at most one place. */
  ghost predicate OnePlace(b: Box) {
    && Apart(Tids(b.receivers), Tids(b.senders), b.wokenR.Keys, b.wokenS.Keys, b.failed.Keys)
    && KeyedByTid(b.wokenR) && KeyedByTid(b.wokenS)
  }

  /**
    No wake-up is lost: while a receiver is suspended, every stored mail has a woken receiver
    on its way; while a sender is suspended, every free slot has a woken sender on its way.
    The last two arguments count woken threads that have just started to run.
   */
  ghost predicate NoLostWakeup(b: Box, runningR: nat, runningS: nat) {
    && (b.receivers != [] ==> |b.mails| <= |b.wokenR| + runningR)
    && (b.senders != [] ==> b.size - |b.mails| <= |b.wokenS| + runningS)
  }

  /** The invariant while the given numbers of woken threads are about to use their section */
  ghost predicate InvDuring(b: Box, runningR: nat, runningS: nat) {
    && |b.mails| <= b.size
    && QueueOk(b.flag, b.clock, b.receivers) && QueueOk(b.flag, b.clock, b.senders)
    && OnePlace(b)
    && NoLostWakeup(b, runningR, runningS)
    && b.sent == b.got + b.mails
  }

  ghost predicate Inv(b: Box) {
    InvDuring(b, 0, 0)
  }

  lemma {:induction false} JoinPlace(b: Box, c: Box, t: nat)
    requires OnePlace(b) && t !in Busy(b)
    requires c.wokenR == b.wokenR && c.wokenS == b.wokenS && c.failed == b.failed
    requires (Tids(c.senders) == Tids(b.senders) + {t} && c.receivers == b.receivers)
             || (Tids(c.receivers) == Tids(b.receivers) + {t} && c.senders == b.senders)
    ensures OnePlace(c)
  {
    hide Tids, Apart;
    ApartEnter(Tids(b.receivers), Tids(b.senders), b.wokenR.Keys, b.wokenS.Keys, b.failed.Keys, t);
  }

  /** A sender that finds no slot goes back to the queue. */
  lemma {:induction false} BlockSender(b: Box, w: Caller)
    requires InvDuring(b, 0, 1) && w.tid !in Busy(b) && w.tid !in Tids(b.senders) && |b.mails| == b.size && w.stamp == b.clock
    ensures Inv(b.(senders := Enqueue(b.flag, b.senders, w), clock := b.clock + 1))
  {
    hide Tids, QueueOk, Enqueue, OnePlace, Busy;
    EnqueueFacts(b.flag, b.clock, b.senders, w);
    ClockOk(b.flag, b.clock, b.receivers);
    JoinPlace(b, b.(senders := Enqueue(b.flag, b.senders, w), clock := b.clock + 1), w.tid);
  }

  lemma {:induction false} BlockReceiver(b: Box, w: Caller)
    requires InvDuring(b, 1, 0) && w.tid !in Busy(b) && w.tid !in Tids(b.receivers) && |b.mails| == 0 && w.stamp == b.clock
    ensures Inv(b.(receivers := Enqueue(b.flag, b.receivers, w), clock := b.clock + 1))
  {
    hide Tids, QueueOk, Enqueue, OnePlace, Busy;
    EnqueueFacts(b.flag, b.clock, b.receivers, w);
    ClockOk(b.flag, b.clock, b.senders);
    JoinPlace(b, b.(receivers := Enqueue(b.flag, b.receivers, w), clock := b.clock + 1), w.tid);
  }

  lemma {:induction false} WakePlaceR(b: Box, c: Box, t: nat)
    requires OnePlace(b) && t in Tids(b.receivers) && Tids(c.receivers) == Tids(b.receivers) - {t}
    requires c.senders == b.senders && c.wokenS == b.wokenS && c.failed == b.failed
    requires c.wokenR.Keys == b.wokenR.Keys + {t} && KeyedByTid(c.wokenR)
    ensures OnePlace(c) && t !in b.wokenR
  {
    hide Tids, Apart;
    ApartWake(Tids(b.receivers), Tids(b.senders), b.wokenR.Keys, b.wokenS.Keys, b.failed.Keys, t);
  }

  lemma {:induction false} WakePlaceS(b: Box, c: Box, t: nat)
    requires OnePlace(b) && t in Tids(b.senders) && Tids(c.senders) == Tids(b.senders) - {t}
    requires c.receivers == b.receivers && c.wokenR == b.wokenR && c.failed == b.failed
    requires c.wokenS.Keys == b.wokenS.Keys + {t} && KeyedByTid(c.wokenS)
    ensures OnePlace(c) && t !in b.wokenS
  {
    hide Tids, Apart;
    ApartWake(Tids(b.receivers), Tids(b.senders), b.wokenR.Keys, b.wokenS.Keys, b.failed.Keys, t);
  }

  lemma {:induction false} AddKey(m: map<nat, Caller>, w: Caller)
    requires KeyedByTid(m)
    ensures KeyedByTid(m[w.tid := w]) && m[w.tid := w].Keys == m.Keys + {w.tid}
    ensures w.tid !in m ==> |m[w.tid := w]| == |m| + 1
  {
  }

  /** Waking the head of a queue moves it between two places. */
  lemma {:induction false} WakeReceiver(b: Box)
    requires OnePlace(b) && QueueOk(b.flag, b.clock, b.receivers) && b.receivers != []
    ensures
      var r := b.receivers[0];
      var b' := b.(receivers := b.receivers[1..], wokenR := b.wokenR[r.tid := r]);
      OnePlace(b') && QueueOk(b.flag, b.clock, b'.receivers) && |b'.wokenR| == |b.wokenR| + 1
  {
    var r := b.receivers[0];
    AddKey(b.wokenR, r);
    hide Tids, QueueOk, OnePlace, KeyedByTid;
    DequeueFacts(b.flag, b.clock, b.receivers);
    WakePlaceR(b, b.(receivers := b.receivers[1..], wokenR := b.wokenR[r.tid := r]), r.tid);
  }

  lemma {:induction false} WakeSender(b: Box)
    requires OnePlace(b) && QueueOk(b.flag, b.clock, b.senders) && b.senders != []
    ensures
      var s := b.senders[0];
      var b' := b.(senders := b.senders[1..], wokenS := b.wokenS[s.tid := s]);
      OnePlace(b') && QueueOk(b.flag, b.clock, b'.senders) && |b'.wokenS| == |b.wokenS| + 1
  {
    var s := b.senders[0];
    AddKey(b.wokenS, s);
    hide Tids, QueueOk, OnePlace, KeyedByTid;
    DequeueFacts(b.flag, b.clock, b.senders);
    WakePlaceS(b, b.(senders := b.senders[1..], wokenS := b.wokenS[s.tid := s]), s.tid);
  }

  /** A sender that runs uses a slot, gives up, or finds no slot and is back in the queue. */
  lemma {:induction false} SendSectionKeeps(b: Box, w: Caller)
    requires InvDuring(b, 0, 1) && w.tid !in Busy(b)
    ensures Inv(SendSection(b, w).0)
  {
    hide OnePlace, QueueOk, Enqueue;
    if |b.mails| == b.size {
      if w.timeout != 0 {
        hide InvDuring;
        BlockSender(b, w.(stamp := b.clock));
      }
    } else {
      hide InvDuring, SendSection;
      DepositKeeps(b, w);
    }
  }

  lemma {:induction false} DepositKeeps(b: Box, w: Caller)
    requires InvDuring(b, 0, 1) && |b.mails| != b.size
    ensures Inv(SendSection(b, w).0)
  {
    hide OnePlace, QueueOk, Enqueue;
    var b1 := b.(mails := b.mails + [w.info], sent := b.sent + [w.info]);
    assert b1.sent == b1.got + b1.mails;
    SamePlaces(b, b1);
    if b.receivers == [] {
      assert SendSection(b, w).0 == b1;
    } else {
      WakeReceiver(b1);
    }
  }

  /** A receiver that runs takes a mail, gives up, or finds none and is back in the queue. */
  lemma {:induction false} RecvSectionKeeps(b: Box, w: Caller)
    requires InvDuring(b, 1, 0) && w.tid !in Busy(b)
    ensures Inv(RecvSection(b, w).0)
  {
    hide OnePlace, QueueOk, Enqueue;
    if |b.mails| == 0 {
      if w.timeout != 0 {
        BlockReceiver(b, w.(stamp := b.clock));
      }
    } else {
      assert b.got + b.mails == b.got + [b.mails[0]] + b.mails[1..];
      var b1 := b.(mails := b.mails[1..], got := b.got + [b.mails[0]]);
      SamePlaces(b, b1);
      if b.senders != [] {
        WakeSender(b1);
      }
    }
  }

  lemma {:induction false} SamePlaces(b: Box, c: Box)
    requires b.receivers == c.receivers && b.senders == c.senders
    requires b.wokenR == c.wokenR && b.wokenS == c.wokenS && b.failed.Keys == c.failed.Keys
    ensures OnePlace(b) <==> OnePlace(c)
  {
  }

  lemma {:induction false} ExpirePlace(b: Box, c: Box, t: nat)
    requires OnePlace(b) && c.wokenR == b.wokenR && c.wokenS == b.wokenS && c.failed == b.failed[t := TimedOut]
    requires (Tids(c.senders) == Tids(b.senders) - {t} && t in Tids(b.senders) && c.receivers == b.receivers)
             || (Tids(c.receivers) == Tids(b.receivers) - {t} && t in Tids(b.receivers) && c.senders == b.senders)
    ensures OnePlace(c)
  {
    hide Tids, Apart;
    ApartWake(Tids(b.receivers), Tids(b.senders), b.wokenR.Keys, b.wokenS.Keys, b.failed.Keys, t);
    assert b.failed[t := TimedOut].Keys == b.failed.Keys + {t};
  }

  lemma {:induction false} ExpireRKeeps(b: Box, i: nat)
    requires Inv(b) && i < |b.receivers|
    ensures Inv(ExpireR(b, i))
  {
    hide Tids, OnePlace, QueueOk, Without;
    WithoutQueue(b.flag, b.clock, b.receivers, i);
    ExpirePlace(b, ExpireR(b, i), b.receivers[i].tid);
  }

  lemma {:induction false} ExpireSKeeps(b: Box, i: nat)
    requires Inv(b) && i < |b.senders|
    ensures Inv(ExpireS(b, i))
  {
    hide Tids, OnePlace, QueueOk, Without;
    WithoutQueue(b.flag, b.clock, b.senders, i);
    ExpirePlace(b, ExpireS(b, i), b.senders[i].tid);
  }

  lemma {:induction false} ResetKeeps(b: Box)
    requires Inv(b)
    ensures Inv(ResetBox(b))
  {
    FailAllKeys(b.failed, b.receivers);
    FailAllKeys(FailAll(b.failed, b.receivers), b.senders);
    assert Tids(ResetBox(b).receivers) == {};
  }

  lemma {:induction false} SendAgainKeeps(b: Box, t: nat, p: nat, elapsed: nat)
    requires Inv(b) && t in b.wokenS
    ensures Inv(Next(b, SendAgain(t, p, elapsed)))
  {
    hide Tids, Apart, QueueOk, SendSection;
    var w, b1 := b.wokenS[t], b.(wokenS := b.wokenS - {t});
    ApartLeave(Tids(b.receivers), Tids(b.senders), b.wokenR.Keys, b.wokenS.Keys, b.failed.Keys, t);
    assert b1.wokenS.Keys == b.wokenS.Keys - {t};
    SendSectionKeeps(b1, w.(prio := p, timeout := Remaining(w.timeout, elapsed)));
  }

  lemma {:induction false} RecvAgainKeeps(b: Box, t: nat, p: nat, elapsed: nat)
    requires Inv(b) && t in b.wokenR
    ensures Inv(Next(b, RecvAgain(t, p, elapsed)))
  {
    hide Tids, Apart, QueueOk, RecvSection;
    var w, b1 := b.wokenR[t], b.(wokenR := b.wokenR - {t});
    ApartLeave(Tids(b.receivers), Tids(b.senders), b.wokenR.Keys, b.wokenS.Keys, b.failed.Keys, t);
    assert b1.wokenR.Keys == b.wokenR.Keys - {t};
    RecvSectionKeeps(b1, w.(prio := p, timeout := Remaining(w.timeout, elapsed)));
  }

  /** Every step of every thread, timer or reset keeps the invariant. */
  lemma {:induction false} NextKeeps(b: Box, s: Step)
    requires Inv(b) && Enabled(b, s)
    ensures Inv(Next(b, s))
  {
    hide Tids, Apart, QueueOk, SendSection, RecvSection, ResetBox;
    match s
    case Send(t, p, v, timeout) => SendSectionKeeps(b, Waiter(t, p, 0, timeout, v));
    case Recv(t, p, timeout) => RecvSectionKeeps(b, Waiter(t, p, 0, timeout, 0));
    case SendAgain(t, p, elapsed) => SendAgainKeeps(b, t, p, elapsed);
    case RecvAgain(t, p, elapsed) => RecvAgainKeeps(b, t, p, elapsed);
    case TimerOfSender(i) => ExpireSKeeps(b, i);
    case TimerOfReceiver(i) => ExpireRKeeps(b, i);
    case Return(t) =>
      ApartLeave(Tids(b.receivers), Tids(b.senders), b.wokenR.Keys, b.wokenS.Keys, b.failed.Keys, t);
      assert (b.failed - {t}).Keys == b.failed.Keys - {t};
    case Reset => ResetKeeps(b);
  }

  // ---------------------------------------------------------------------------------
  // Runs
  // ---------------------------------------------------------------------------------

  function Init(flag: Flag, size: nat): Box {
    Box(flag, size, [], [], [], map[], map[], map[], 0, [], [])
  }

  /** A run: each state follows from the one before by an enabled step. */
  ghost predicate IsRun(states: seq<Box>, steps: seq<Step>) {
    && |states| == |steps| + 1
    && (forall i | 0 <= i < |steps| :: Enabled(states[i], steps[i]) && states[i + 1] == Next(states[i], steps[i]))
  }

  lemma {:induction false} RunKeepsInv(flag: Flag, size: nat, states: seq<Box>, steps: seq<Step>, n: nat)
    requires IsRun(states, steps) && states[0] == Init(flag, size) && n < |states|
    ensures Inv(states[n]) && states[n].size == size
  {
    hide Inv, Next, Enabled;
    if n == 0 {
      InitInv(flag, size);
    } else {
      RunKeepsInv(flag, size, states, steps, n - 1);
      NextKeeps(states[n - 1], steps[n - 1]);
      NextSize(states[n - 1], steps[n - 1]);
      assert states[n - 1 + 1] == Next(states[n - 1], steps[n - 1]);
    }
  }

  lemma {:induction false} NextSize(b: Box, s: Step)
    requires Enabled(b, s)
    ensures Next(b, s).size == b.size
  {
  }

  lemma {:induction false} InitInv(flag: Flag, size: nat)
    ensures Inv(Init(flag, size))
  {
    var q: seq<Caller> := [];
    assert Tids(q) == {};
  }

  /**
    In every reachable state: if nobody who was woken is still on the way, then suspended
    receivers mean an empty box and suspended senders a full one, so both kinds can be
    suspended together only on a box of size 0.
   */
  lemma {:induction false} NobodySleepsThroughAMail(flag: Flag, size: nat, states: seq<Box>, steps: seq<Step>, n: nat)
    requires IsRun(states, steps) && states[0] == Init(flag, size) && n < |states|
    ensures
      var b := states[n];
      && (b.receivers != [] && b.wokenR == map[] ==> b.mails == [])
      && (b.senders != [] && b.wokenS == map[] ==> |b.mails| == size)
      && (b.receivers != [] && b.senders != [] && b.wokenR == map[] && b.wokenS == map[] ==> size == 0)
  {
    RunKeepsInv(flag, size, states, steps, n);
  }

  /** Over every run, what has been received since the last reset is what was sent, in order. */
  lemma {:induction false} DeliversInOrder(flag: Flag, size: nat, states: seq<Box>, steps: seq<Step>, n: nat)
    requires IsRun(states, steps) && states[0] == Init(flag, size) && n < |states|
    ensures var b := states[n]; b.got <= b.sent && b.sent[|b.got|..] == b.mails && |b.mails| <= size
  {
    RunKeepsInv(flag, size, states, steps, n);
  }
}

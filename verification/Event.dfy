/**
  Event flags: a 32-bit set and a list of threads that wait for an AND or an OR of bits.
 */
module EventSpec {
  import opened WaitQueue

  /** RT_EVENT_FLAG_AND, RT_EVENT_FLAG_OR and RT_EVENT_FLAG_CLEAR of a receive, and its bits */
  datatype Wish = Wish(bits: bv32, conj: bool, disj: bool, clear: bool)

  type Receiver = Waiter<Wish>

  datatype Event = Event(
    flag: Flag,
    bitSet: bv32,
    waiters: seq<Receiver>,
    woken: map<nat, bv32>,          // bits each woken thread will return, until it returns
    failed: map<nat, Outcome>,      // threads whose wait ended with an error
    clock: nat
  )

  function Both(a: bv32, b: bv32): bv32 { a & b }

  function Either(a: bv32, b: bv32): bv32 { a | b }

  function Minus(a: bv32, b: bv32): bv32 { a & !b }

  /** The test of rt_event_recv and of the loop in rt_event_send */
  predicate Satisfied(bitSet: bv32, w: Wish) {
    if w.conj then Both(bitSet, w.bits) == w.bits
    else if w.disj then Both(bitSet, w.bits) != 0
    else false
  }

  /** What an immediate receive returns, and the set it leaves */
  function Received(bitSet: bv32, w: Wish): bv32 { Both(bitSet, w.bits) }

  function Left(bitSet: bv32, w: Wish): bv32 { if w.clear then Minus(bitSet, w.bits) else bitSet }

  /** rt_event_recv up to its return or its sleep; the last component is the received set */
  function Recv(e: Event, t: nat, prio: nat, w: Wish, timeout: int): (Event, Outcome, bv32) {
    if w.bits == 0 then (e, Failed, 0)
    else if Satisfied(e.bitSet, w) then (e.(bitSet := Left(e.bitSet, w)), Ok, Received(e.bitSet, w))
    else if timeout == 0 then (e, TimedOut, 0)
    else (e.(waiters := Enqueue(e.flag, e.waiters, Waiter(t, prio, e.clock, timeout, w)), clock := e.clock + 1), Blocked, 0)
  }

  /**
    The loop of rt_event_send over the list from its head: every satisfied waiter is served as
    an immediate receive at that moment would be, and leaves the list.
   */
  function Serve(bitSet: bv32, q: seq<Receiver>, woken: map<nat, bv32>): (bv32, seq<Receiver>, map<nat, bv32>)
    decreases |q|
  {
    if q == [] then (bitSet, [], woken)
    else if Satisfied(bitSet, q[0].info) then
      Serve(Left(bitSet, q[0].info), q[1..], woken[q[0].tid := Received(bitSet, q[0].info)])
    else
      var (s, rest, wk) := Serve(bitSet, q[1..], woken);
      (s, [q[0]] + rest, wk)
  }

  function Send(e: Event, bits: bv32): (Event, Outcome) {
    if bits == 0 then (e, Failed)
    else
      var (s, rest, wk) := Serve(Either(e.bitSet, bits), e.waiters, e.woken);
      (e.(bitSet := s, waiters := rest, woken := wk), Ok)
  }

  datatype Step =
    | RecvStep(t: nat, prio: nat, wish: Wish, timeout: int)
    | SendStep(bits: bv32)
    | TimerStep(i: nat)
    | ReturnStep(u: nat)
    | ResetStep

  ghost predicate Enabled(e: Event, s: Step) {
    match s
    case RecvStep(t, _, _, _) => t !in Tids(e.waiters) && t !in e.woken && t !in e.failed
    case SendStep(_) => true
    case TimerStep(i) => i < |e.waiters| && e.waiters[i].timeout > 0
    case ReturnStep(t) => t in e.woken || t in e.failed
    case ResetStep => true
  }

  ghost function Next(e: Event, s: Step): Event
    requires Enabled(e, s)
  {
    match s
    case RecvStep(t, p, w, timeout) => Recv(e, t, p, w, timeout).0
    case SendStep(bits) => Send(e, bits).0
    case TimerStep(i) => e.(waiters := Without(e.waiters, i), failed := e.failed[e.waiters[i].tid := TimedOut])
    case ReturnStep(t) => e.(woken := e.woken - {t}, failed := e.failed - {t})
    case ResetStep => e.(bitSet := 0, waiters := [], failed := FailAll(e.failed, e.waiters))
  }

  // ---------------------------------------------------------------------------------
  // No satisfied thread is left waiting
  // ---------------------------------------------------------------------------------

  ghost predicate NoneSatisfied(bitSet: bv32, q: seq<Receiver>) {
    forall w :: w in q ==> !Satisfied(bitSet, w.info)
  }

  ghost predicate Inv(e: Event) {
    NoneSatisfied(e.bitSet, e.waiters) && QueueOk(e.flag, e.clock, e.waiters)
  }

  /** Taking bits away satisfies nobody. */
  lemma {:induction false} FewerBits(bitSet: bv32, gone: bv32, w: Wish)
    requires Satisfied(Minus(bitSet, gone), w)
    ensures Satisfied(bitSet, w)
  {
    hide Both, Minus;
    FewerAll(bitSet, gone, w.bits);
    FewerSome(bitSet, gone, w.bits);
  }

  lemma {:induction false} FewerAll(a: bv32, gone: bv32, b: bv32)
    ensures Both(Minus(a, gone), b) == b ==> Both(a, b) == b
  {
  }

  lemma {:induction false} FewerSome(a: bv32, gone: bv32, b: bv32)
    ensures Both(Minus(a, gone), b) != 0 ==> Both(a, b) != 0
  {
  }

  lemma {:induction false} LeftSatisfies(bitSet: bv32, v: Wish, w: Wish)
    requires Satisfied(Left(bitSet, v), w)
    ensures Satisfied(bitSet, w)
  {
    hide Both, Minus, Satisfied;
    if v.clear {
      FewerBits(bitSet, v.bits, w);
    }
  }

  /**
    The loop leaves a part of the list, in order; nobody left is satisfied by the final set,
    whatever later waiters cleared.
   */
  lemma {:induction false} ServeLeavesUnsatisfied(bitSet: bv32, q: seq<Receiver>, woken: map<nat, bv32>)
    ensures
      var (s, rest, _) := Serve(bitSet, q, woken);
      && NoneSatisfied(s, rest)
      && (forall w: Wish :: Satisfied(s, w) ==> Satisfied(bitSet, w))
    decreases |q|
  {
    if q != [] {
      var w := q[0].info;
      if Satisfied(bitSet, w) {
        ServeLeavesUnsatisfied(Left(bitSet, w), q[1..], woken[q[0].tid := Received(bitSet, w)]);
        forall v: Wish | Satisfied(Left(bitSet, w), v) ensures Satisfied(bitSet, v) {
          LeftSatisfies(bitSet, w, v);
        }
      } else {
        ServeLeavesUnsatisfied(bitSet, q[1..], woken);
      }
    }
  }

  /** `r` is `q` with some elements left out. */
  ghost predicate Thinned(r: seq<Receiver>, q: seq<Receiver>)
    decreases |q|
  {
    if r == [] then true
    else q != [] && ((r[0] == q[0] && Thinned(r[1..], q[1..])) || Thinned(r, q[1..]))
  }

  lemma {:induction false} ServeThins(bitSet: bv32, q: seq<Receiver>, woken: map<nat, bv32>)
    ensures Thinned(Serve(bitSet, q, woken).1, q)
    decreases |q|
  {
    if q != [] {
      var w := q[0].info;
      if Satisfied(bitSet, w) {
        ServeThins(Left(bitSet, w), q[1..], woken[q[0].tid := Received(bitSet, w)]);
      } else {
        ServeThins(bitSet, q[1..], woken);
        var rest := Serve(bitSet, q[1..], woken).1;
        assert ([q[0]] + rest)[1..] == rest;
      }
    }
  }

  lemma {:induction false} ThinnedMembers(r: seq<Receiver>, q: seq<Receiver>, x: Receiver)
    requires Thinned(r, q) && x in r
    ensures x in q
    decreases |q|
  {
    if r[0] == q[0] && Thinned(r[1..], q[1..]) {
      if x != r[0] {
        ThinnedMembers(r[1..], q[1..], x);
      }
    } else {
      ThinnedMembers(r, q[1..], x);
    }
  }

  lemma {:induction false} ThinnedQueue(r: seq<Receiver>, q: seq<Receiver>, flag: Flag, clock: nat)
    requires Thinned(r, q) && QueueOk(flag, clock, q)
    ensures QueueOk(flag, clock, r)
    decreases |q|
  {
    if r != [] {
      TailQueue(q, flag, clock);
      if r[0] == q[0] && Thinned(r[1..], q[1..]) {
        ThinnedQueue(r[1..], q[1..], flag, clock);
        ConsQueue(r, q, flag, clock);
      } else {
        ThinnedQueue(r, q[1..], flag, clock);
      }
    }
  }

  lemma {:induction false} TailQueue(q: seq<Receiver>, flag: Flag, clock: nat)
    requires QueueOk(flag, clock, q) && q != []
    ensures QueueOk(flag, clock, q[1..])
  {
    hide Before;
  }

  lemma {:induction false} ConsQueue(r: seq<Receiver>, q: seq<Receiver>, flag: Flag, clock: nat)
    requires r != [] && q != [] && r[0] == q[0] && Thinned(r[1..], q[1..])
    requires QueueOk(flag, clock, q) && QueueOk(flag, clock, r[1..])
    ensures QueueOk(flag, clock, r)
  {
    hide Before;
    forall k | 0 < k < |r| ensures r[0].tid != r[k].tid && Before(flag, r[0], r[k]) && r[k].stamp < clock {
      assert r[k] == r[1..][k - 1];
      ThinnedMembers(r[1..], q[1..], r[k]);
      var j :| 0 <= j < |q[1..]| && q[1..][j] == r[k];
      assert q[j + 1] == r[k] && q[j + 1] in q;
    }
    assert q[0] in q;
    forall i, j | 0 <= i < j < |r| ensures r[i].tid != r[j].tid && Before(flag, r[i], r[j]) {
      if i > 0 {
        assert r[i] == r[1..][i - 1] && r[j] == r[1..][j - 1];
      }
    }
    forall x | x in r ensures x.stamp < clock {
      var k :| 0 <= k < |r| && r[k] == x;
    }
  }

  /** Every step keeps every suspended waiter unsatisfied and the list in serving order. */
  lemma {:induction false} NextKeeps(e: Event, s: Step)
    requires Inv(e) && Enabled(e, s)
    ensures Inv(Next(e, s))
  {
    hide QueueOk;
    match s
    case RecvStep(t, p, w, timeout) => RecvKeeps(e, t, p, w, timeout);
    case SendStep(bits) => SendKeeps(e, bits);
    case TimerStep(i) =>
      WithoutQueue(e.flag, e.clock, e.waiters, i);
      assert forall x :: x in Without(e.waiters, i) ==> x in e.waiters;
    case ReturnStep(_) =>
    case ResetStep => EmptyQueue<Wish>(e.flag, e.clock);
  }

  lemma {:induction false} RecvKeeps(e: Event, t: nat, p: nat, w: Wish, timeout: int)
    requires Inv(e) && t !in Tids(e.waiters)
    ensures Inv(Recv(e, t, p, w, timeout).0)
  {
    hide QueueOk, Enqueue;
    if w.bits != 0 {
      if Satisfied(e.bitSet, w) {
        forall x | x in e.waiters ensures !Satisfied(Left(e.bitSet, w), x.info) {
          if Satisfied(Left(e.bitSet, w), x.info) {
            LeftSatisfies(e.bitSet, w, x.info);
          }
        }
      } else if timeout != 0 {
        EnqueueFacts(e.flag, e.clock, e.waiters, Waiter(t, p, e.clock, timeout, w));
        EnqueueMembers(e.flag, e.waiters, Waiter(t, p, e.clock, timeout, w));
      }
    }
  }

  lemma {:induction false} SendKeeps(e: Event, bits: bv32)
    requires Inv(e)
    ensures Inv(Send(e, bits).0)
  {
    hide QueueOk, Serve, Thinned;
    if bits != 0 {
      ServeLeavesUnsatisfied(Either(e.bitSet, bits), e.waiters, e.woken);
      ServeThins(Either(e.bitSet, bits), e.waiters, e.woken);
      ThinnedQueue(Serve(Either(e.bitSet, bits), e.waiters, e.woken).1, e.waiters, e.flag, e.clock);
    }
  }

  function Init(flag: Flag): Event {
    Event(flag, 0, [], map[], map[], 0)
  }

  ghost predicate IsRun(states: seq<Event>, steps: seq<Step>) {
    && |states| == |steps| + 1
    && (forall i | 0 <= i < |steps| :: Enabled(states[i], steps[i]) && states[i + 1] == Next(states[i], steps[i]))
  }

  /** In every reachable state no suspended thread's condition is satisfied by the event set. */
  lemma {:induction false} NobodyWaitsSatisfied(flag: Flag, states: seq<Event>, steps: seq<Step>, n: nat)
    requires IsRun(states, steps) && states[0] == Init(flag) && n < |states|
    ensures Inv(states[n])
  {
    if n > 0 {
      hide Inv, Next, Enabled;
      NobodyWaitsSatisfied(flag, states, steps, n - 1);
      NextKeeps(states[n - 1], steps[n - 1]);
      assert states[n - 1 + 1] == Next(states[n - 1], steps[n - 1]);
    }
  }
}

/** The event object in place */
module Event {
  import opened WaitQueue
  import opened EventSpec

  /** The `event_set` that the loop of rt_event_send saves in a thread it wakes */
  function Saved(bitSet: bv32, w: Wish): bv32 {
    if w.conj then w.bits else Both(w.bits, bitSet)
  }

  /** The event set after the loop has woken a thread with that saved set */
  function Cleared(bitSet: bv32, w: Wish): bv32 {
    if w.clear then Minus(bitSet, Saved(bitSet, w)) else bitSet
  }

  /** The loop hands over and clears exactly what an immediate receive would. */
  lemma {:induction false} WokenAsImmediate(bitSet: bv32, w: Wish)
    requires Satisfied(bitSet, w)
    ensures Saved(bitSet, w) == Received(bitSet, w)
    ensures Cleared(bitSet, w) == Left(bitSet, w)
  {
    hide Both, Minus;
    BothCommutes(bitSet, w.bits);
    MinusBoth(bitSet, w.bits);
  }

  lemma {:induction false} BothCommutes(a: bv32, b: bv32)
    ensures Both(b, a) == Both(a, b)
  {
  }

  lemma {:induction false} MinusBoth(a: bv32, b: bv32)
    ensures Minus(a, Both(b, a)) == Minus(a, b)
  {
  }

  class EventObject {
    const flag: Flag
    var bitSet: bv32
    var waiters: seq<Receiver>
    var woken: map<nat, bv32>
    var failed: map<nat, Outcome>
    var clock: nat

    ghost function Abs(): EventSpec.Event
      reads this
    {
      EventSpec.Event(flag, bitSet, waiters, woken, failed, clock)
    }

    ghost predicate Valid()
      reads this
    {
      Inv(Abs())
    }

    /** rt_event_init */
    constructor (flag: Flag)
      ensures Valid() && Abs() == Init(flag)
    {
      this.flag := flag;
      bitSet, waiters, woken, failed, clock := 0, [], map[], map[], 0;
    }

    /** rt_event_send */
    method Send(bits: bv32) returns (r: Outcome)
      requires Valid()
      modifies this
      ensures Valid() && Abs() == Next(old(Abs()), SendStep(bits))
      ensures r == EventSpec.Send(old(Abs()), bits).1
    {
      hide Inv, Serve, Either;
      NextKeeps(Abs(), SendStep(bits));
      if bits == 0 {
        return Failed;
      }
      bitSet := Either(bitSet, bits);
      ServeAll();
      assert Abs() == Next(old(Abs()), SendStep(bits));
      return Ok;
    }

    /** The loop of rt_event_send over the suspended threads */
    method ServeAll()
      modifies `bitSet, `waiters, `woken
      ensures (bitSet, waiters, woken) == Serve(old(bitSet), old(waiters), old(woken))
    {
      hide Satisfied, Received, Left, Saved, Cleared, Serve;
      ghost var all := Serve(bitSet, waiters, woken);
      var n := 0;
      assert waiters[..0] == [] && waiters[0..] == waiters;
      assert waiters[..0] + all.1 == all.1;
      while n < |waiters|
        invariant n <= |waiters|
        invariant
          var (s, rest, wk) := Serve(bitSet, waiters[n..], woken);
          all == (s, waiters[..n] + rest, wk)
        decreases |waiters| - n
      {
        var w := waiters[n];
        ServeStep(bitSet, waiters, n, woken);
        if Satisfied(bitSet, w.info) {
          WokenAsImmediate(bitSet, w.info);
          woken := woken[w.tid := Saved(bitSet, w.info)];
          bitSet := Cleared(bitSet, w.info);
          waiters := Without(waiters, n);
        } else {
          n := n + 1;
        }
      }
      ServeNobody(bitSet, waiters, woken);
      assert waiters[..n] + [] == waiters;
    }

    /** rt_event_recv, up to its return or its sleep */
    method Recv(t: nat, prio: nat, w: Wish, timeout: int) returns (r: Outcome, recved: bv32)
      requires Valid() && Enabled(Abs(), RecvStep(t, prio, w, timeout))
      modifies this
      ensures Valid() && Abs() == Next(old(Abs()), RecvStep(t, prio, w, timeout))
      ensures r == EventSpec.Recv(old(Abs()), t, prio, w, timeout).1
      ensures recved == EventSpec.Recv(old(Abs()), t, prio, w, timeout).2
    {
      NextKeeps(Abs(), RecvStep(t, prio, w, timeout));
      hide Inv, Enqueue, Satisfied, Received, Left;
      r, recved := Failed, 0;
      if w.bits != 0 {
        if Satisfied(bitSet, w) {
          r, recved := Ok, Received(bitSet, w);
          bitSet := Left(bitSet, w);
        } else if timeout == 0 {
          r := TimedOut;
        } else {
          waiters := Suspend(flag, waiters, Waiter(t, prio, clock, timeout, w));
          clock := clock + 1;
          r := Blocked;
        }
      }
      assert Abs() == Next(old(Abs()), RecvStep(t, prio, w, timeout));
    }

    /** rt_thread_timeout of a waiting thread */
    method Timeout(i: nat)
      requires Valid() && Enabled(Abs(), TimerStep(i))
      modifies this
      ensures Valid() && Abs() == Next(old(Abs()), TimerStep(i))
    {
      NextKeeps(Abs(), TimerStep(i));
      failed := failed[waiters[i].tid := TimedOut];
      waiters := Without(waiters, i);
    }
  }

  lemma {:induction false} ServeNobody(bitSet: bv32, q: seq<Receiver>, woken: map<nat, bv32>)
    ensures q[|q|..] == [] && Serve(bitSet, q[|q|..], woken) == (bitSet, [], woken)
  {
  }

  /** One turn of the loop, seen on the list that is being walked */
  lemma {:induction false} ServeStep(bitSet: bv32, q: seq<Receiver>, n: nat, woken: map<nat, bv32>)
    requires n < |q|
    ensures
      var w := q[n];
      var (s, rest, wk) := Serve(bitSet, q[n..], woken);
      if Satisfied(bitSet, w.info) then
        (s, rest, wk) == Serve(Left(bitSet, w.info), Without(q, n)[n..], woken[w.tid := Received(bitSet, w.info)])
        && Without(q, n)[..n] == q[..n]
      else
        var (s', rest', wk') := Serve(bitSet, q[n + 1..], woken);
        s == s' && wk == wk' && q[..n] + rest == q[..n + 1] + rest'
  {
    assert q[n..][0] == q[n] && q[n..][1..] == q[n + 1..];
    assert Without(q, n)[n..] == q[n + 1..];
  }
}

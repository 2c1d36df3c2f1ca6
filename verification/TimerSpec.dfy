/**
  Timers over a 32-bit tick counter that wraps around.

  `now` is the number of ticks since start-up, without wrap; the counter `rt_tick` is `now`
  modulo 2^32, and every comparison is the 32-bit one of the source.  A timer remembers when
  its start was requested, so that its deadline can be stated without wrap.

  rt_timer_start reads the tick before it switches interrupts off, so it is two steps: the
  read, and the insertion, with any other steps in between.
 */
module TimerSpec {

  const TICKS: nat := 0x1_0000_0000
  const HALF: nat := 0x7fff_ffff        // RT_TICK_MAX / 2

  datatype Timer = Timer(id: nat, initTick: nat, periodic: bool, start: nat) {
    function Deadline(): nat { start + initTick }
    function TimeoutTick(): nat { (start + initTick) % TICKS }
    /** The tick at which it is to fire: a timer of 0 ticks fires at the next check. */
    function Due(): nat { if initTick == 0 then start + 1 else start + initTick }
  }

  /** Unsigned 32-bit subtraction */
  function Minus(a: nat, b: nat): int
    requires a < TICKS && b < TICKS
  {
    if a >= b then a - b else a + TICKS - b
  }

  /**
    On the wrapped counter, "the difference is less than half" means "not before", as long as
    the two moments are no more than half the range apart.
   */
  lemma {:induction false} WrappedOrder(x: nat, y: nat)
    requires x < y + HALF && y <= x + HALF
    ensures Minus(x % TICKS, y % TICKS) < HALF <==> y <= x
  {
    if y <= x {
      WrapForward(y, x - y);
    } else {
      WrapForward(x, y - x);
    }
  }

  lemma {:induction false} WrapForward(y: nat, d: nat)
    requires d <= HALF
    ensures Minus((y + d) % TICKS, y % TICKS) == d
    ensures d > 0 ==> Minus(y % TICKS, (y + d) % TICKS) == TICKS - d
  {
    var r := y % TICKS;
    if r + d < TICKS {
      assert (y + d) % TICKS == r + d;
    } else {
      assert (y + d) % TICKS == r + d - TICKS;
    }
  }

  // ---------------------------------------------------------------------------------
  // The list
  // ---------------------------------------------------------------------------------

  datatype Wheel = Wheel(
    list: seq<Timer>,                   // rt_timer_list
    now: nat,
    fired: seq<(Timer, nat)>,           // each timer that fired, with the tick it fired at
    armed: map<nat, Timer>              // timers between the two steps of rt_timer_start
  )

  /** The test of the insertion loop: `x` is not to fire before `t`. */
  predicate NotBefore(x: Timer, t: Timer) {
    Minus(x.TimeoutTick(), t.TimeoutTick()) < HALF
  }

  /** The test of the check loop */
  predicate Reached(t: Timer, now: nat) {
    Minus(now % TICKS, t.TimeoutTick()) < HALF
  }

  ghost predicate Sorted(list: seq<Timer>) {
    forall i, j | 0 <= i < j < |list| :: list[i].Deadline() <= list[j].Deadline()
  }

  ghost predicate Distinct(list: seq<Timer>) {
    forall i, j | 0 <= i < j < |list| :: list[i].id != list[j].id
  }

  /** Where rt_timer_start puts a timer */
  function Slot(list: seq<Timer>, t: Timer, i: nat := 0): (r: nat)
    requires i <= |list|
    ensures i <= r <= |list|
    ensures forall k | i <= k < r :: !NotBefore(list[k], t)
    ensures r < |list| ==> NotBefore(list[r], t)
    decreases |list| - i
  {
    if i == |list| || NotBefore(list[i], t) then i else Slot(list, t, i + 1)
  }

  function Insert(list: seq<Timer>, t: Timer): seq<Timer> {
    var i := Slot(list, t);
    list[..i] + [t] + list[i..]
  }

  function IndexOf(list: seq<Timer>, id: nat, i: nat := 0): (r: nat)
    requires i <= |list|
    ensures i <= r <= |list|
    ensures r < |list| ==> list[r].id == id
    ensures forall k | i <= k < r :: list[k].id != id
    decreases |list| - i
  {
    if i == |list| || list[i].id == id then i else IndexOf(list, id, i + 1)
  }

  /** Every deadline is close enough to `now` for the 32-bit comparisons. */
  ghost predicate Near(list: seq<Timer>, now: nat) {
    forall t :: t in list ==> now <= t.Deadline() + 1 && t.Deadline() < now + HALF && t.initTick < HALF
  }

  lemma {:induction false} InsertMembers(list: seq<Timer>, t: Timer)
    ensures forall x :: x in Insert(list, t) <==> x == t || x in list
  {
    var i := Slot(list, t);
    assert list == list[..i] + list[i..];
  }

  /** With near deadlines the 32-bit comparisons put the timer where its deadline belongs. */
  lemma {:induction false} InsertSorted(list: seq<Timer>, t: Timer, now: nat)
    requires Sorted(list) && Near(list, now) && now <= t.Deadline() < now + HALF
    ensures Sorted(Insert(list, t))
  {
    var i := Slot(list, t);
    forall k | 0 <= k < |list| ensures NotBefore(list[k], t) <==> t.Deadline() <= list[k].Deadline() {
      assert list[k] in list;
      WrappedOrder(list[k].Deadline(), t.Deadline());
    }
    hide NotBefore, Near;
    SplitSorted(list, t, i);
  }

  lemma {:induction false} SplitSorted(list: seq<Timer>, t: Timer, i: nat)
    requires Sorted(list) && i <= |list|
    requires forall k | 0 <= k < i :: list[k].Deadline() <= t.Deadline()
    requires i < |list| ==> t.Deadline() <= list[i].Deadline()
    ensures Sorted(list[..i] + [t] + list[i..])
  {
    var r := list[..i] + [t] + list[i..];
    forall k | i <= k < |list| ensures t.Deadline() <= list[k].Deadline() {
      assert k == i || list[i].Deadline() <= list[k].Deadline();
    }
    forall j, k | 0 <= j < k < |r| ensures r[j].Deadline() <= r[k].Deadline() {
      assert r[j] == if j < i then list[j] else if j == i then t else list[j - 1];
      assert r[k] == if k < i then list[k] else if k == i then t else list[k - 1];
    }
  }

  lemma {:induction false} InsertDistinct(list: seq<Timer>, t: Timer)
    requires Distinct(list) && forall x :: x in list ==> x.id != t.id
    ensures Distinct(Insert(list, t))
  {
    var i := Slot(list, t);
    var r := Insert(list, t);
    forall j, k | 0 <= j < k < |r| ensures r[j].id != r[k].id {
      assert r[j] == if j < i then list[j] else if j == i then t else list[j - 1];
      assert r[k] == if k < i then list[k] else if k == i then t else list[k - 1];
    }
  }

  // ---------------------------------------------------------------------------------
  // rt_timer_check, turn by turn
  // ---------------------------------------------------------------------------------

  /** The check loop has another turn to make. */
  predicate HeadDue(w: Wheel) {
    w.list != [] && Reached(w.list[0], w.now)
  }

  /** One turn of the loop: the first timer fires; a periodic one starts again. */
  function FireHead(w: Wheel): Wheel
    requires w.list != []
  {
    var t := w.list[0];
    var rest := w.list[1..];
    w.(list := if t.periodic then Insert(rest, t.(start := w.now)) else rest, fired := w.fired + [(t, w.now)])
  }

  /** The loop after `n` turns, or fewer if it stops before */
  function Turns(w: Wheel, n: nat): Wheel
    decreases n
  {
    if n == 0 || !HeadDue(w) then w else Turns(FireHead(w), n - 1)
  }

  /** The loop stops at some point. */
  ghost predicate Ends(w: Wheel) {
    exists n: nat :: !HeadDue(Turns(w, n))
  }

  /** rt_timer_check; a check that does not end leaves no state, and this gives the one it began in. */
  ghost function Check(w: Wheel): Wheel {
    if Ends(w) then
      var n: nat :| !HeadDue(Turns(w, n));
      Turns(w, n)
    else w
  }

  /** The state of a check: sorted, and everything near enough to compare. */
  ghost predicate Checkable(w: Wheel) {
    Sorted(w.list) && Near(w.list, w.now)
  }

  /** With near deadlines, the loop turns exactly while the first deadline has been reached. */
  lemma {:induction false} HeadDueIff(w: Wheel)
    requires Checkable(w)
    ensures HeadDue(w) <==> w.list != [] && w.list[0].Deadline() <= w.now
  {
    if w.list != [] {
      assert w.list[0] in w.list;
      WrappedOrder(w.now, w.list[0].Deadline());
    }
  }

  lemma {:induction false} FireHeadCheckable(w: Wheel)
    requires Checkable(w) && w.list != []
    ensures Checkable(FireHead(w))
    ensures forall x | x in w.list[1..] :: x in w.list && x in FireHead(w).list
    ensures w.list[0].periodic ==> w.list[0].(start := w.now) in FireHead(w).list
    ensures forall x | x in FireHead(w).list :: x in w.list[1..] || (w.list[0].periodic && x == w.list[0].(start := w.now))
  {
    var t, rest := w.list[0], w.list[1..];
    assert t in w.list;
    assert Sorted(rest);
    if t.periodic {
      InsertMembers(rest, t.(start := w.now));
      InsertSorted(rest, t.(start := w.now), w.now);
    }
  }

  /** The number of timers whose deadline has been reached */
  function DueCount(list: seq<Timer>, now: nat): nat {
    if list == [] then 0 else (if list[0].Deadline() <= now then 1 else 0) + DueCount(list[1..], now)
  }

  lemma {:induction false} DueCountConcat(a: seq<Timer>, b: seq<Timer>, now: nat)
    ensures DueCount(a + b, now) == DueCount(a, now) + DueCount(b, now)
  {
    if a == [] {
      assert a + b == b;
    } else {
      assert (a + b)[1..] == a[1..] + b;
      DueCountConcat(a[1..], b, now);
    }
  }

  /** A turn with a positive period, or none, leaves fewer timers due. */
  lemma {:induction false} FireHeadDue(w: Wheel)
    requires w.list != [] && w.list[0].Deadline() <= w.now && (w.list[0].periodic ==> w.list[0].initTick > 0)
    ensures DueCount(FireHead(w).list, w.now) < DueCount(w.list, w.now)
  {
    var t, rest := w.list[0], w.list[1..];
    if t.periodic {
      var n := t.(start := w.now);
      var i := Slot(rest, n);
      DueCountConcat(rest[..i] + [n], rest[i..], w.now);
      DueCountConcat(rest[..i], [n], w.now);
      DueCountConcat(rest[..i], rest[i..], w.now);
      assert rest == rest[..i] + rest[i..];
      assert [n][1..] == [];
    }
  }

  /** A periodic timer of zero ticks whose deadline has been reached */
  predicate ZeroPeriod(t: Timer, now: nat) {
    t.periodic && t.initTick == 0 && t.Deadline() <= now
  }

  ghost predicate HasZeroPeriod(w: Wheel) {
    exists t :: t in w.list && ZeroPeriod(t, w.now)
  }

  /** Such a timer is still there after every turn, so the loop has another turn to make. */
  lemma {:induction false} ZeroPeriodStays(w: Wheel)
    requires Checkable(w) && HasZeroPeriod(w)
    ensures w.list != [] && HeadDue(w) && Checkable(FireHead(w)) && HasZeroPeriod(FireHead(w))
  {
    var t :| t in w.list && ZeroPeriod(t, w.now);
    var k :| 0 <= k < |w.list| && w.list[k] == t;
    assert k == 0 || w.list[0].Deadline() <= w.list[k].Deadline();
    HeadDueIff(w);
    FireHeadCheckable(w);
    hide Checkable, FireHead;
    if k == 0 {
      assert ZeroPeriod(t.(start := w.now), w.now);
    } else {
      assert t == w.list[1..][k - 1];
    }
    assert FireHead(w).now == w.now by { FireHeadNow(w); }
  }

  lemma {:induction false} FireHeadNow(w: Wheel)
    requires w.list != []
    ensures FireHead(w).now == w.now && FireHead(w).armed == w.armed && FireHead(w).fired == w.fired + [(w.list[0], w.now)]
  {
  }

  /** Without one, no turn makes one. */
  lemma {:induction false} NoZeroPeriodStays(w: Wheel)
    requires Checkable(w) && !HasZeroPeriod(w) && HeadDue(w)
    ensures Checkable(FireHead(w)) && !HasZeroPeriod(FireHead(w))
    ensures DueCount(FireHead(w).list, w.now) < DueCount(w.list, w.now)
  {
    HeadDueIff(w);
    FireHeadCheckable(w);
    FireHeadNow(w);
    var t := w.list[0];
    assert t in w.list;
    assert !ZeroPeriod(t, w.now);
    FireHeadDue(w);
    hide Checkable, FireHead, HeadDue, DueCount;
    forall x | x in FireHead(w).list ensures !ZeroPeriod(x, w.now) {
      assert x in w.list[1..] ==> x in w.list;
    }
  }

  lemma {:induction false} TurnsStep(w: Wheel, n: nat)
    requires HeadDue(w) && n > 0
    ensures Turns(w, n) == Turns(FireHead(w), n - 1)
  {
  }

  lemma {:induction false} RunsOn(w: Wheel, n: nat)
    requires Checkable(w) && HasZeroPeriod(w)
    ensures HeadDue(Turns(w, n))
    decreases n
  {
    hide Checkable, HasZeroPeriod, FireHead, HeadDue;
    ZeroPeriodStays(w);
    if n == 0 {
      assert Turns(w, 0) == w;
    } else {
      TurnsStep(w, n);
      hide Turns;
      RunsOn(FireHead(w), n - 1);
    }
  }

  lemma {:induction false} RunsOut(w: Wheel, n: nat)
    requires Checkable(w) && !HasZeroPeriod(w) && DueCount(w.list, w.now) <= n
    ensures !HeadDue(Turns(w, n))
    decreases n
  {
    if HeadDue(w) {
      NoZeroPeriodStays(w);
      FireHeadNow(w);
      hide Checkable, HasZeroPeriod, DueCount, FireHead;
      TurnsStep(w, n);
      hide Turns, HeadDue;
      RunsOut(FireHead(w), n - 1);
    }
  }

  /** Once the loop has stopped, more turns change nothing. */
  lemma {:induction false} TurnsBeyond(w: Wheel, n: nat, m: nat)
    requires !HeadDue(Turns(w, n)) && n <= m
    ensures Turns(w, m) == Turns(w, n)
    decreases n
  {
    if n > 0 && HeadDue(w) {
      TurnsBeyond(FireHead(w), n - 1, m - 1);
    }
  }

  /** The check runs for ever exactly when a periodic timer of zero ticks is due on the list. */
  lemma {:induction false} NeverEndsIff(w: Wheel)
    requires Checkable(w)
    ensures (forall n: nat :: HeadDue(Turns(w, n))) <==> HasZeroPeriod(w)
    ensures Ends(w) <==> !HasZeroPeriod(w)
  {
    hide Checkable, Turns, HeadDue, HasZeroPeriod;
    if HasZeroPeriod(w) {
      forall n: nat ensures HeadDue(Turns(w, n)) {
        RunsOn(w, n);
      }
    } else {
      RunsOut(w, DueCount(w.list, w.now));
    }
  }

  /** The result of a check does not depend on how it is reached. */
  lemma {:induction false} CheckIs(w: Wheel, n: nat)
    requires !HeadDue(Turns(w, n))
    ensures Check(w) == Turns(w, n)
  {
    hide Turns, HeadDue;
    assert Ends(w);
    var m: nat :| !HeadDue(Turns(w, m)) && Check(w) == Turns(w, m);
    if m <= n {
      TurnsBeyond(w, m, n);
    } else {
      TurnsBeyond(w, n, m);
    }
  }

  lemma {:induction false} CheckTurn(w: Wheel)
    requires HeadDue(w)
    ensures Ends(FireHead(w)) ==> Check(w) == Check(FireHead(w))
  {
    assert w.list != [];
    hide HeadDue, FireHead;
    if Ends(FireHead(w)) {
      var n: nat :| !HeadDue(Turns(FireHead(w), n));
      CheckIs(FireHead(w), n);
      assert Turns(w, n + 1) == Turns(FireHead(w), n);
      CheckIs(w, n + 1);
    }
  }

  // ---------------------------------------------------------------------------------
  // Steps
  // ---------------------------------------------------------------------------------

  datatype Step = ReadStep(id: nat, initTick: nat, periodic: bool) | InsertStep(id: nat) | StopStep(id: nat) | TickStep

  predicate Active(w: Wheel, id: nat) {
    IndexOf(w.list, id) < |w.list|
  }

  /** rt_timer_start up to the assignment of timeout_tick */
  function Read(w: Wheel, id: nat, initTick: nat, periodic: bool): Wheel {
    if Active(w, id) then w else w.(armed := w.armed[id := Timer(id, initTick, periodic, w.now)])
  }

  /** rt_timer_start with interrupts off */
  function InsertArmed(w: Wheel, id: nat): Wheel {
    if id in w.armed then w.(list := Insert(w.list, w.armed[id]), armed := w.armed - {id}) else w
  }

  /** rt_timer_stop */
  function Stop(w: Wheel, id: nat): Wheel {
    var i := IndexOf(w.list, id);
    if i == |w.list| then w else w.(list := w.list[..i] + w.list[i + 1..])
  }

  /** rt_tick_increase, as far as timers go */
  ghost function Tick(w: Wheel): Wheel {
    Check(w.(now := w.now + 1))
  }

  ghost function Next(w: Wheel, s: Step): Wheel {
    match s
    case ReadStep(id, n, p) => Read(w, id, n, p)
    case InsertStep(id) => InsertArmed(w, id)
    case StopStep(id) => Stop(w, id)
    case TickStep => Tick(w)
  }

  /** Fewer ticks than the timer asks for have passed since the read. */
  predicate InTime(w: Wheel, id: nat) {
    id in w.armed && w.now < w.armed[id].Due()
  }

  /**
    The runs considered: what rt_timer_start asserts, periods that are not zero, one start of a
    timer at a time, and insertions in time.
   */
  predicate Legal(w: Wheel, s: Step) {
    match s
    case ReadStep(id, n, p) => n < HALF && (p ==> n > 0) && id !in w.armed
    case InsertStep(id) => InTime(w, id)
    case _ => true
  }

  // ---------------------------------------------------------------------------------
  // The invariant
  // ---------------------------------------------------------------------------------

  /** Every timer on the list was started in the past and is not due before `now + 1`. */
  ghost predicate Pending(list: seq<Timer>, now: nat) {
    forall t :: t in list ==> t.start <= now < t.Due() && t.initTick < HALF
  }

  ghost predicate Periods(list: seq<Timer>) {
    forall t :: t in list && t.periodic ==> t.initTick > 0
  }

  ghost predicate FiredOnTime(fired: seq<(Timer, nat)>) {
    forall e :: e in fired ==> e.1 == e.0.Due()
  }

  ghost predicate ArmedOk(w: Wheel) {
    forall id :: id in w.armed ==>
      && w.armed[id].id == id && w.armed[id].start <= w.now && w.armed[id].initTick < HALF
      && (w.armed[id].periodic ==> w.armed[id].initTick > 0)
      && (forall t :: t in w.list ==> t.id != id)
  }

  ghost predicate Inv(w: Wheel) {
    && Sorted(w.list) && Distinct(w.list) && Pending(w.list, w.now) && Periods(w.list)
    && FiredOnTime(w.fired) && ArmedOk(w)
  }

  /** The state inside rt_timer_check: timers may be due now. */
  ghost predicate InvAtCheck(w: Wheel) {
    && Sorted(w.list) && Distinct(w.list) && Periods(w.list) && FiredOnTime(w.fired) && ArmedOk(w)
    && (forall t :: t in w.list ==> t.start <= w.now <= t.Due() && t.initTick < HALF && (w.now == t.start ==> t.initTick > 0))
  }

  lemma {:induction false} InvNear(w: Wheel)
    requires InvAtCheck(w) || Inv(w)
    ensures Near(w.list, w.now) && Checkable(w)
  {
  }

  lemma {:induction false} FireHeadKeeps(w: Wheel)
    requires InvAtCheck(w) && HeadDue(w)
    ensures InvAtCheck(FireHead(w)) && w.list[0].Due() == w.now
    ensures DueCount(FireHead(w).list, w.now) < DueCount(w.list, w.now)
  {
    var t, rest := w.list[0], w.list[1..];
    InvNear(w);
    HeadDueIff(w);
    assert t in w.list;
    FireHeadDue(w);
    FireHeadCheckable(w);
    FireHeadNow(w);
    assert Distinct(rest);
    forall x | x in rest ensures x in w.list && x.id != t.id {
      var k :| 0 <= k < |rest| && rest[k] == x;
      assert w.list[k + 1] == x;
    }
    if t.periodic {
      InsertDistinct(rest, t.(start := w.now));
    }
    FireHeadMembers(w);
  }

  lemma {:induction false} FireHeadMembers(w: Wheel)
    requires InvAtCheck(w) && w.list != [] && w.list[0].Due() == w.now && Checkable(FireHead(w))
    requires forall x | x in FireHead(w).list :: x in w.list || (w.list[0].periodic && x == w.list[0].(start := w.now))
    ensures Periods(FireHead(w).list) && FiredOnTime(FireHead(w).fired) && ArmedOk(FireHead(w))
    ensures forall t :: t in FireHead(w).list ==>
      t.start <= w.now <= t.Due() && t.initTick < HALF && (w.now == t.start ==> t.initTick > 0)
  {
    assert w.list[0] in w.list;
    FireHeadNow(w);
    hide FireHead, Sorted, Distinct, Checkable;
  }

  /** After the check nothing is overdue, and everything that fired did so on time. */
  lemma {:induction false} CheckKeeps(w: Wheel)
    requires InvAtCheck(w)
    ensures Ends(w) && Inv(Check(w)) && Check(w).now == w.now && w.fired <= Check(w).fired
    decreases DueCount(w.list, w.now)
  {
    InvNear(w);
    if HeadDue(w) {
      FireHeadKeeps(w);
      FireHeadNow(w);
      CheckKeeps(FireHead(w));
      EndsTurn(w);
      CheckTurn(w);
    } else {
      CheckStops(w);
      HeadDueIff(w);
      forall t | t in w.list ensures w.now < t.Due() {
        var k :| 0 <= k < |w.list| && w.list[k] == t;
        assert k == 0 || w.list[0].Deadline() <= w.list[k].Deadline();
      }
    }
  }

  lemma {:induction false} EndsTurn(w: Wheel)
    requires HeadDue(w) && Ends(FireHead(w))
    ensures Ends(w)
  {
    assert w.list != [];
    hide HeadDue, FireHead;
    var n: nat :| !HeadDue(Turns(FireHead(w), n));
    assert Turns(w, n + 1) == Turns(FireHead(w), n);
  }

  lemma {:induction false} CheckStops(w: Wheel)
    requires !HeadDue(w)
    ensures Ends(w) && Check(w) == w
  {
    assert Turns(w, 0) == w;
    CheckIs(w, 0);
  }

  lemma {:induction false} TickReady(w: Wheel)
    requires Inv(w)
    ensures InvAtCheck(w.(now := w.now + 1))
  {
  }

  lemma {:induction false} TickKeeps(w: Wheel)
    requires Inv(w)
    ensures Inv(Tick(w)) && Tick(w).now == w.now + 1 && w.fired <= Tick(w).fired
  {
    hide Inv, InvAtCheck;
    TickReady(w);
    CheckKeeps(w.(now := w.now + 1));
  }

  lemma {:induction false} ReadKeeps(w: Wheel, id: nat, n: nat, p: bool)
    requires Inv(w) && Legal(w, ReadStep(id, n, p))
    ensures Inv(Read(w, id, n, p))
  {
    hide Sorted, Distinct, Pending, Periods, FiredOnTime;
    if !Active(w, id) {
      forall t | t in w.list ensures t.id != id {
        var k :| 0 <= k < |w.list| && w.list[k] == t;
      }
    }
  }

  lemma {:induction false} InsertKeeps(w: Wheel, id: nat)
    requires Inv(w) && InTime(w, id)
    ensures Inv(InsertArmed(w, id))
  {
    var t := w.armed[id];
    InvNear(w);
    InsertMembers(w.list, t);
    InsertSorted(w.list, t, w.now);
    InsertDistinct(w.list, t);
    hide Sorted, Distinct, Insert;
  }

  /** A late insertion leaves a timer on the list that is overdue already: the invariant holds exactly in time. */
  lemma {:induction false} InsertKeepsIff(w: Wheel, id: nat)
    requires Inv(w) && id in w.armed
    ensures Inv(InsertArmed(w, id)) <==> w.now < w.armed[id].Due()
  {
    if w.now < w.armed[id].Due() {
      hide Inv;
      InsertKeeps(w, id);
    } else {
      InsertMembers(w.list, w.armed[id]);
      assert w.armed[id] in InsertArmed(w, id).list;
    }
  }

  lemma {:induction false} RemoveSorted(list: seq<Timer>, i: nat)
    requires i < |list| && Sorted(list) && Distinct(list)
    ensures Sorted(list[..i] + list[i + 1..]) && Distinct(list[..i] + list[i + 1..])
  {
    var r := list[..i] + list[i + 1..];
    forall j, k | 0 <= j < k < |r| ensures r[j].Deadline() <= r[k].Deadline() && r[j].id != r[k].id {
      var j', k' := if j < i then j else j + 1, if k < i then k else k + 1;
      assert r[j] == list[j'] && r[k] == list[k'];
    }
  }

  lemma {:induction false} RemoveMembers(list: seq<Timer>, i: nat)
    requires i < |list|
    ensures forall x :: x in list[..i] + list[i + 1..] ==> x in list
    ensures forall x :: x in list && x != list[i] ==> x in list[..i] + list[i + 1..]
  {
    assert list == list[..i] + [list[i]] + list[i + 1..];
  }

  lemma {:induction false} StopKeeps(w: Wheel, id: nat)
    requires Inv(w)
    ensures Inv(Stop(w, id))
    ensures forall x :: x in w.list && x.id != id ==> x in Stop(w, id).list
  {
    hide Sorted, Distinct;
    var i := IndexOf(w.list, id);
    if i < |w.list| {
      RemoveSorted(w.list, i);
      RemoveMembers(w.list, i);
    }
  }

  /** Every step keeps the list sorted, everything on it still to come, and every firing on time. */
  lemma {:induction false} NextKeeps(w: Wheel, s: Step)
    requires Inv(w) && Legal(w, s)
    ensures Inv(Next(w, s))
  {
    hide Inv, Read, InsertArmed, Stop, Tick;
    match s
    case ReadStep(id, n, p) => ReadKeeps(w, id, n, p);
    case InsertStep(id) => InsertKeeps(w, id);
    case StopStep(id) => StopKeeps(w, id);
    case TickStep => TickKeeps(w);
  }

  // ---------------------------------------------------------------------------------
  // Runs
  // ---------------------------------------------------------------------------------

  /** Any steps at all, in any order */
  ghost predicate IsTrace(states: seq<Wheel>, steps: seq<Step>) {
    |states| == |steps| + 1 && forall i | 0 <= i < |steps| :: states[i + 1] == Next(states[i], steps[i])
  }

  ghost predicate IsRun(states: seq<Wheel>, steps: seq<Step>) {
    IsTrace(states, steps) && forall i | 0 <= i < |steps| :: Legal(states[i], steps[i])
  }

  function Empty(now: nat): Wheel {
    Wheel([], now, [], map[])
  }

  /** Every state of a run from an empty list, at whatever tick, satisfies the invariant. */
  lemma {:induction false} RunKeepsInv(now: nat, states: seq<Wheel>, steps: seq<Step>, n: nat)
    requires IsRun(states, steps) && states[0] == Empty(now) && n < |states|
    ensures Inv(states[n])
  {
    if n > 0 {
      hide Inv, Next, Legal;
      RunKeepsInv(now, states, steps, n - 1);
      NextKeeps(states[n - 1], steps[n - 1]);
      assert states[n - 1 + 1] == Next(states[n - 1], steps[n - 1]);
    }
  }

  /** Nothing ever fires early or late: every entry of the log bears the tick the timer was due. */
  lemma {:induction false} NeverEarlyNeverLate(now: nat, states: seq<Wheel>, steps: seq<Step>, n: nat, e: (Timer, nat))
    requires IsRun(states, steps) && states[0] == Empty(now) && n < |states| && e in states[n].fired
    ensures e.1 == e.0.Due()
  {
    RunKeepsInv(now, states, steps, n);
  }

  /** The check fires a timer exactly when it is due, and keeps it otherwise. */
  lemma {:induction false} CheckOutcome(w: Wheel, t: Timer)
    requires InvAtCheck(w) && t in w.list
    ensures if w.now < t.Due() then t in Check(w).list else (t, t.Due()) in Check(w).fired
    decreases DueCount(w.list, w.now)
  {
    InvNear(w);
    if HeadDue(w) {
      var h, w1 := w.list[0], FireHead(w);
      FireHeadKeeps(w);
      FireHeadNow(w);
      FireHeadCheckable(w);
      CheckKeeps(w1);
      CheckTurn(w);
      hide InvAtCheck, Inv, FireHead, HeadDue, Check, Ends, Checkable, DueCount;
      if t == h {
        assert (h, w.now) == w1.fired[|w.fired|];
        PrefixMember(w1.fired, Check(w1).fired, (h, w.now));
      } else {
        var k :| 0 <= k < |w.list| && w.list[k] == t;
        assert t == w.list[1..][k - 1];
        CheckOutcome(w1, t);
      }
    } else {
      CheckStops(w);
      HeadDueIff(w);
      var k :| 0 <= k < |w.list| && w.list[k] == t;
      assert k == 0 || w.list[0].Deadline() <= w.list[k].Deadline();
    }
  }

  lemma {:induction false} PrefixMember(a: seq<(Timer, nat)>, b: seq<(Timer, nat)>, e: (Timer, nat))
    requires a <= b && e in a
    ensures e in b
  {
    var k :| 0 <= k < |a| && a[k] == e;
    assert b[k] == e;
  }

  lemma {:induction false} InsertStays(w: Wheel, id: nat, t: Timer)
    requires t in w.list
    ensures t in InsertArmed(w, id).list && InsertArmed(w, id).fired == w.fired && InsertArmed(w, id).now == w.now
  {
    if id in w.armed {
      InsertMembers(w.list, w.armed[id]);
    }
  }

  lemma {:induction false} StopStays(w: Wheel, id: nat, t: Timer)
    requires Inv(w) && t in w.list && id != t.id
    ensures t in Stop(w, id).list && Stop(w, id).fired == w.fired && Stop(w, id).now == w.now
  {
    StopKeeps(w, id);
    hide Inv;
  }

  lemma {:induction false} TickStays(w: Wheel, t: Timer)
    requires Inv(w) && t in w.list
    ensures if Tick(w).now < t.Due() then t in Tick(w).list else (t, t.Due()) in Tick(w).fired
  {
    hide Inv, InvAtCheck, Check;
    var w1 := w.(now := w.now + 1);
    TickReady(w);
    CheckOutcome(w1, t);
    CheckKeeps(w1);
  }

  /** One step leaves a timer alone, or fires it at the tick it is due. */
  lemma {:induction false} StepStays(w: Wheel, s: Step, t: Timer)
    requires Inv(w) && t in w.list && s != StopStep(t.id)
    ensures if Next(w, s).now < t.Due() then t in Next(w, s).list else (t, t.Due()) in Next(w, s).fired
  {
    assert w.now < t.Due();
    hide Inv, InsertArmed, Stop, Tick;
    match s
    case ReadStep(id, n, p) =>
    case InsertStep(id) => InsertStays(w, id, t);
    case StopStep(id) => StopStays(w, id, t);
    case TickStep => TickStays(w, t);
  }

  lemma {:induction false} StepLog(w: Wheel, s: Step)
    requires Inv(w)
    ensures w.fired <= Next(w, s).fired && w.now <= Next(w, s).now
  {
    if s == TickStep {
      hide Inv, Tick;
      TickKeeps(w);
    }
  }

  /**
    In every run, across wraparound of the counter: a timer that is on the list and is not
    stopped stays there until the tick it is due, and by then it has fired at exactly that tick.
   */
  lemma {:induction false} FiresExactlyWhenDue(now: nat, states: seq<Wheel>, steps: seq<Step>, i: nat, n: nat, t: Timer)
    requires IsRun(states, steps) && states[0] == Empty(now) && i <= n < |states| && t in states[i].list
    requires forall k | i <= k < n :: steps[k] != StopStep(t.id)
    ensures if states[n].now < t.Due() then t in states[n].list else (t, t.Due()) in states[n].fired
  {
    Carries(now, states, steps, i, n, t);
  }

  /** The timer is on the list, or it is due and has fired when it was. */
  ghost predicate OnTime(w: Wheel, t: Timer) {
    if w.now < t.Due() then t in w.list else (t, t.Due()) in w.fired
  }

  lemma {:induction false} Carries(now: nat, states: seq<Wheel>, steps: seq<Step>, i: nat, n: nat, t: Timer)
    requires IsRun(states, steps) && states[0] == Empty(now) && i <= n < |states| && t in states[i].list
    requires forall k | i <= k < n :: steps[k] != StopStep(t.id)
    ensures OnTime(states[n], t)
  {
    hide Inv, Next, IsRun, IsTrace, Empty;
    RunTrace(states, steps);
    if n == i {
      RunKeepsInv(now, states, steps, i);
      ListedNotDue(states[i], t);
    } else {
      hide OnTime;
      StepAt(states, steps, n);
      Carries(now, states, steps, i, n - 1, t);
      RunKeepsInv(now, states, steps, n - 1);
      StepCarries(states[n - 1], steps[n - 1], t);
    }
  }

  lemma {:induction false} StepAt(states: seq<Wheel>, steps: seq<Step>, n: nat)
    requires IsTrace(states, steps) && 0 < n < |states|
    ensures n - 1 < |steps| && states[n] == Next(states[n - 1], steps[n - 1])
  {
    assert states[n - 1 + 1] == Next(states[n - 1], steps[n - 1]);
  }

  lemma {:induction false} RunTrace(states: seq<Wheel>, steps: seq<Step>)
    requires IsRun(states, steps)
    ensures IsTrace(states, steps) && |states| == |steps| + 1
  {
  }

  lemma {:induction false} ListedNotDue(w: Wheel, t: Timer)
    requires Inv(w) && t in w.list
    ensures w.now < t.Due()
  {
  }

  lemma {:induction false} StepCarries(w: Wheel, s: Step, t: Timer)
    requires Inv(w) && s != StopStep(t.id)
    requires OnTime(w, t)
    ensures OnTime(Next(w, s), t)
  {
    hide Inv, Next;
    if w.now < t.Due() {
      StepStays(w, s, t);
    } else {
      StepLog(w, s);
      PrefixMember(w.fired, Next(w, s).fired, (t, t.Due()));
    }
  }

  // ---------------------------------------------------------------------------------
  // Late insertions
  // ---------------------------------------------------------------------------------

  /** What fires from some point on bears a later tick. */
  ghost predicate LogSince(w: Wheel, v: Wheel) {
    && w.fired <= v.fired && w.now <= v.now
    && (forall k | |w.fired| <= k < |v.fired| :: w.now < v.fired[k].1)
  }

  lemma {:induction false} TurnsLog(w: Wheel, n: nat)
    ensures Turns(w, n).now == w.now && w.fired <= Turns(w, n).fired
    ensures forall k | |w.fired| <= k < |Turns(w, n).fired| :: Turns(w, n).fired[k].1 == w.now
    decreases n
  {
    if n > 0 && HeadDue(w) {
      FireHeadNow(w);
      TurnsLog(FireHead(w), n - 1);
    }
  }

  lemma {:induction false} NextLog(w: Wheel, s: Step)
    ensures LogSince(w, Next(w, s))
  {
    if s == TickStep {
      var w1 := w.(now := w.now + 1);
      if Ends(w1) {
        var n: nat :| !HeadDue(Turns(w1, n)) && Check(w1) == Turns(w1, n);
        TurnsLog(w1, n);
      }
    }
  }

  lemma {:induction false} TraceLog(states: seq<Wheel>, steps: seq<Step>, i: nat, n: nat)
    requires IsTrace(states, steps) && i <= n < |states|
    ensures LogSince(states[i], states[n])
  {
    if i < n {
      hide Next;
      TraceLog(states, steps, i, n - 1);
      NextLog(states[n - 1], steps[n - 1]);
      assert states[n - 1 + 1] == Next(states[n - 1], steps[n - 1]);
    }
  }

  /** Whatever happens afterwards, every firing of a timer that is inserted late bears a later tick than its own. */
  lemma {:induction false} LateNeverOnTime(states: seq<Wheel>, steps: seq<Step>, i: nat, n: nat, id: nat, k: nat)
    requires IsTrace(states, steps) && i < n < |states| && steps[i] == InsertStep(id)
    requires id in states[i].armed && states[i].armed[id].Due() <= states[i].now
    requires |states[i].fired| <= k < |states[n].fired|
    ensures states[n].fired[k].1 > states[i].armed[id].Due()
  {
    TraceLog(states, steps, i, n);
  }

  /** The log has no entry from the future. */
  lemma {:induction false} LogPast(now: nat, states: seq<Wheel>, steps: seq<Step>, n: nat)
    requires IsTrace(states, steps) && states[0] == Empty(now) && n < |states|
    ensures forall e | e in states[n].fired :: e.1 <= states[n].now
  {
    if n > 0 {
      LogPast(now, states, steps, n - 1);
      StepAt(states, steps, n);
      hide IsTrace, Next;
      NextPast(states[n - 1], steps[n - 1]);
    }
  }

  lemma {:induction false} NextPast(w: Wheel, s: Step)
    requires forall e | e in w.fired :: e.1 <= w.now
    ensures forall e | e in Next(w, s).fired :: e.1 <= Next(w, s).now
  {
    if s == TickStep {
      var w1 := w.(now := w.now + 1);
      if Ends(w1) {
        var n: nat :| !HeadDue(Turns(w1, n)) && Check(w1) == Turns(w1, n);
        TurnsLog(w1, n);
        var v := Turns(w1, n);
        hide Turns, Ends;
        forall e | e in v.fired ensures e.1 <= v.now {
          var k :| 0 <= k < |v.fired| && v.fired[k] == e;
          assert k < |w.fired| ==> w.fired[k] == e;
        }
      }
    }
  }

  /** A firing at tick `t.Due()` is among those logged between the two states. */
  ghost predicate FiredBetween(w: Wheel, v: Wheel, t: Timer) {
    exists k | |w.fired| <= k < |v.fired| :: v.fired[k] == (t, t.Due())
  }

  /**
    A timer that is not stopped has fired at its tick, once that has come, exactly if fewer
    ticks than it asks for passed between the read of the tick and the insertion.
   */
  lemma {:induction false} OnTimeIff(now: nat, states: seq<Wheel>, steps: seq<Step>, i: nat, n: nat, id: nat)
    requires IsTrace(states, steps) && states[0] == Empty(now) && i < n < |states|
    requires steps[i] == InsertStep(id) && id in states[i].armed
    requires forall k | 0 <= k < |steps| && k != i :: Legal(states[k], steps[k])
    requires forall k | i < k < n :: steps[k] != StopStep(id)
    requires states[i].armed[id].Due() <= states[n].now
    ensures FiredBetween(states[i], states[n], states[i].armed[id]) <==> states[i].now < states[i].armed[id].Due()
  {
    var t := states[i].armed[id];
    if states[i].now < t.Due() {
      assert IsRun(states, steps);
      ArmedIs(now, states, steps, i, id);
      StepAt(states, steps, i + 1);
      InsertMembers(states[i].list, t);
      FiresExactlyWhenDue(now, states, steps, i + 1, n, t);
      LogPast(now, states, steps, i);
      TraceLog(states, steps, i, n);
      hide IsTrace, IsRun, Next, Legal;
      var k :| 0 <= k < |states[n].fired| && states[n].fired[k] == (t, t.Due());
      assert forall j | 0 <= j < |states[i].fired| :: states[i].fired[j] in states[i].fired && states[n].fired[j] == states[i].fired[j];
    } else {
      forall k | |states[i].fired| <= k < |states[n].fired| ensures states[n].fired[k] != (t, t.Due()) {
        LateNeverOnTime(states, steps, i, n, id, k);
      }
    }
  }

  lemma {:induction false} ArmedIs(now: nat, states: seq<Wheel>, steps: seq<Step>, i: nat, id: nat)
    requires IsRun(states, steps) && states[0] == Empty(now) && i < |states| && id in states[i].armed
    ensures states[i].armed[id].id == id
  {
    RunKeepsInv(now, states, steps, i);
  }

  /** A start of one tick whose caller is held up for one tick: it fires at tick 2, one tick late. */
  lemma {:induction false} LateRun()
    ensures
      var steps := [ReadStep(0, 1, false), TickStep, InsertStep(0), TickStep];
      var t := Timer(0, 1, false, 0);
      exists states: seq<Wheel> :: IsTrace(states, steps) && states[0] == Empty(0) && states[4].fired == [(t, 2)] && t.Due() == 1
  {
    var t := Timer(0, 1, false, 0);
    var steps := [ReadStep(0, 1, false), TickStep, InsertStep(0), TickStep];
    var w0 := Empty(0);
    var w1 := w0.(armed := map[0 := t]);
    assert Next(w0, steps[0]) == w1;
    var w2 := w1.(now := 1);
    CheckStops(w2);
    assert Next(w1, steps[1]) == w2;
    var w3 := Wheel([t], 1, [], map[]);
    assert Insert([], t) == [t];
    assert w2.armed - {0} == map[];
    assert Next(w2, steps[2]) == w3;
    var w4 := Wheel([], 2, [(t, 2)], map[]);
    assert FireHead(w3.(now := 2)) == w4;
    CheckStops(w4);
    CheckTurn(w3.(now := 2));
    assert Next(w3, steps[3]) == w4;
    var states := [w0, w1, w2, w3, w4];
    assert IsTrace(states, steps);
  }
}

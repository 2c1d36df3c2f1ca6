/** What each timer call answers and changes, and what a start and a stop mean for all that follows. */
module TimerResults {
  import opened TimerSpec

  ghost predicate Listed(list: seq<Timer>, id: nat) {
    exists t :: t in list && t.id == id
  }

  lemma {:induction false} ActiveIff(w: Wheel, id: nat)
    ensures Active(w, id) <==> Listed(w.list, id)
  {
    if t :| t in w.list && t.id == id {
      var k :| 0 <= k < |w.list| && w.list[k] == t;
    }
    if Active(w, id) {
      assert w.list[IndexOf(w.list, id)] in w.list;
    }
  }

  // ---------------------------------------------------------------------------------
  // Single calls
  // ---------------------------------------------------------------------------------

  /** The read of rt_timer_start: an active timer is left alone; any other is due that many ticks from now. */
  lemma {:induction false} ReadArms(w: Wheel, id: nat, n: nat, p: bool)
    ensures Listed(w.list, id) ==> Read(w, id, n, p) == w
    ensures
      var v := Read(w, id, n, p);
      !Listed(w.list, id) ==>
        && v.list == w.list && v.now == w.now && v.fired == w.fired && v.armed.Keys == w.armed.Keys + {id}
        && v.armed[id].Due() == (if n == 0 then w.now + 1 else w.now + n) && v.armed[id].periodic == p && v.armed[id].initTick == n && v.armed[id].id == id
        && (forall j | j in w.armed && j != id :: v.armed[j] == w.armed[j])
  {
    ActiveIff(w, id);
  }

  /** The insertion: exactly the timer that was read joins the list. */
  lemma {:induction false} InsertLists(w: Wheel, id: nat)
    requires id in w.armed
    ensures
      var v := InsertArmed(w, id);
      && v.now == w.now && v.fired == w.fired && v.armed == w.armed - {id} && |v.list| == |w.list| + 1
      && (forall t :: t in v.list <==> t in w.list || t == w.armed[id])
  {
    InsertMembers(w.list, w.armed[id]);
  }

  /** rt_timer_stop: no entry of that timer is left, every other entry is, and nothing fires. */
  lemma {:induction false} StopRemoves(w: Wheel, id: nat)
    requires Inv(w)
    ensures
      var v := Stop(w, id);
      && !Listed(v.list, id) && (forall t :: t in v.list <==> t in w.list && t.id != id)
      && v.now == w.now && v.fired == w.fired && v.armed == w.armed
  {
    hide Sorted, Pending, Periods, FiredOnTime, ArmedOk;
    var i := IndexOf(w.list, id);
    if i < |w.list| {
      RemoveMembers(w.list, i);
      var v := Stop(w, id);
      forall t | t in v.list ensures t.id != id {
        var k :| 0 <= k < |v.list| && v.list[k] == t;
        assert t == w.list[if k < i then k else k + 1];
      }
    } else {
      forall t | t in w.list ensures t.id != id {
        var k :| 0 <= k < |w.list| && w.list[k] == t;
      }
    }
  }

  ghost function Ticks(steps: seq<Step>, n: nat): nat
    requires n <= |steps|
  {
    if n == 0 then 0 else Ticks(steps, n - 1) + if steps[n - 1] == TickStep then 1 else 0
  }

  /** Time is the number of ticks: every tick advances it by one, and nothing else does. */
  lemma {:induction false} NowCountsTicks(now: nat, states: seq<Wheel>, steps: seq<Step>, n: nat)
    requires IsRun(states, steps) && states[0] == Empty(now) && n < |states|
    ensures n <= |steps| && states[n].now == now + Ticks(steps, n)
  {
    RunTrace(states, steps);
    if n > 0 {
      hide IsRun, IsTrace, Inv;
      NowCountsTicks(now, states, steps, n - 1);
      RunStep(now, states, steps, n);
      StepTime(states[n - 1], steps[n - 1]);
    }
  }

  lemma {:induction false} StepTime(w: Wheel, s: Step)
    requires Inv(w)
    ensures Next(w, s).now == w.now + if s == TickStep then 1 else 0
  {
    if s == TickStep {
      hide Inv, Tick;
      TickKeeps(w);
    }
  }

  // ---------------------------------------------------------------------------------
  // Timers that are not running
  // ---------------------------------------------------------------------------------

  /** The timer is neither on the list nor about to be put there. */
  ghost predicate Idle(w: Wheel, id: nat) {
    !Listed(w.list, id) && id !in w.armed
  }

  /** No entry of the timer was added to the log. */
  ghost predicate NoMore(w: Wheel, v: Wheel, id: nat) {
    w.fired <= v.fired && forall k | |w.fired| <= k < |v.fired| :: v.fired[k].0.id != id
  }

  lemma {:induction false} FireHeadIdle(w: Wheel, id: nat)
    requires w.list != [] && Idle(w, id)
    ensures Idle(FireHead(w), id) && NoMore(w, FireHead(w), id)
  {
    var t, rest := w.list[0], w.list[1..];
    assert t in w.list;
    InsertMembers(rest, t.(start := w.now));
    hide Insert;
  }

  lemma {:induction false} TurnsIdle(w: Wheel, id: nat, n: nat)
    requires Idle(w, id)
    ensures Idle(Turns(w, n), id) && NoMore(w, Turns(w, n), id)
    decreases n
  {
    if n > 0 && HeadDue(w) {
      FireHeadIdle(w, id);
      hide Idle, FireHead, HeadDue;
      TurnsIdle(FireHead(w), id, n - 1);
    }
  }

  lemma {:induction false} StepIdle(w: Wheel, s: Step, id: nat)
    requires Inv(w) && Idle(w, id) && !(s.ReadStep? && s.id == id)
    ensures Idle(Next(w, s), id) && NoMore(w, Next(w, s), id)
  {
    hide Insert, Sorted, Distinct, Pending, Periods, FiredOnTime;
    match s
    case ReadStep(j, _, _) =>
    case InsertStep(j) =>
      if j in w.armed {
        InsertMembers(w.list, w.armed[j]);
      }
    case StopStep(j) =>
      var i := IndexOf(w.list, j);
      if i < |w.list| {
        RemoveMembers(w.list, i);
      }
    case TickStep =>
      var w1 := w.(now := w.now + 1);
      if Ends(w1) {
        var n: nat :| !HeadDue(Turns(w1, n)) && Check(w1) == Turns(w1, n);
        TurnsIdle(w1, id, n);
      }
  }

  lemma {:induction false} MoreNoMore(u: Wheel, v: Wheel, w: Wheel, id: nat)
    requires NoMore(u, v, id) && NoMore(v, w, id)
    ensures NoMore(u, w, id)
  {
  }

  /** As long as nobody starts it, an idle timer stays idle and never fires. */
  lemma {:induction false} IdleNeverFires(now: nat, states: seq<Wheel>, steps: seq<Step>, i: nat, n: nat, id: nat)
    requires IsRun(states, steps) && states[0] == Empty(now) && i <= n < |states| && Idle(states[i], id)
    requires forall k | i <= k < n :: !(steps[k].ReadStep? && steps[k].id == id)
    ensures Idle(states[n], id) && NoMore(states[i], states[n], id)
  {
    hide IsRun, IsTrace, Next, Inv, Idle, Empty;
    if i < n {
      IdleNeverFires(now, states, steps, i, n - 1, id);
      RunStep(now, states, steps, n);
      StepIdle(states[n - 1], steps[n - 1], id);
      MoreNoMore(states[i], states[n - 1], states[n], id);
    }
  }

  /** After a stop the timer never fires, until it is started again: not in any run. */
  lemma {:induction false} StoppedNeverFires(now: nat, states: seq<Wheel>, steps: seq<Step>, i: nat, n: nat, id: nat)
    requires IsRun(states, steps) && states[0] == Empty(now) && i < n < |states|
    requires steps[i] == StopStep(id) && id !in states[i].armed
    requires forall k | i < k < n :: !(steps[k].ReadStep? && steps[k].id == id)
    ensures NoMore(states[i], states[n], id) && !Listed(states[n].list, id)
  {
    hide IsRun, IsTrace, Inv, Empty;
    RunTrace(states, steps);
    StepAt(states, steps, i + 1);
    RunKeepsInv(now, states, steps, i);
    StopRemoves(states[i], id);
    IdleNeverFires(now, states, steps, i + 1, n, id);
    hide Next, Listed;
    MoreNoMore(states[i], states[i + 1], states[n], id);
  }

  // ---------------------------------------------------------------------------------
  // From the start to the firing
  // ---------------------------------------------------------------------------------

  lemma {:induction false} RunStep(now: nat, states: seq<Wheel>, steps: seq<Step>, n: nat)
    requires IsRun(states, steps) && states[0] == Empty(now) && 0 < n < |states|
    ensures n - 1 < |steps| && Legal(states[n - 1], steps[n - 1]) && states[n] == Next(states[n - 1], steps[n - 1])
    ensures Inv(states[n - 1])
  {
    RunKeepsInv(now, states, steps, n - 1);
    hide Inv, Legal, Next, Empty;
    assert states[n - 1 + 1] == states[n];
  }

  lemma {:induction false} StepArmed(w: Wheel, s: Step, id: nat)
    requires Inv(w) && Legal(w, s) && id in w.armed && s != InsertStep(id)
    ensures id in Next(w, s).armed && Next(w, s).armed[id] == w.armed[id]
  {
    hide Insert, Sorted, Distinct, Pending, Periods, FiredOnTime;
    if s == TickStep {
      var w1 := w.(now := w.now + 1);
      if Ends(w1) {
        var n: nat :| !HeadDue(Turns(w1, n)) && Check(w1) == Turns(w1, n);
        TurnsArmed(w1, n);
      }
    }
  }

  lemma {:induction false} TurnsArmed(w: Wheel, n: nat)
    ensures Turns(w, n).armed == w.armed
    decreases n
  {
    if n > 0 && HeadDue(w) {
      FireHeadNow(w);
      hide FireHead, HeadDue;
      TurnsArmed(FireHead(w), n - 1);
    }
  }

  lemma {:induction false} ArmedStays(now: nat, states: seq<Wheel>, steps: seq<Step>, i: nat, n: nat, id: nat)
    requires IsRun(states, steps) && states[0] == Empty(now) && i <= n < |states| && id in states[i].armed
    requires forall k | i <= k < n :: steps[k] != InsertStep(id)
    ensures id in states[n].armed && states[n].armed[id] == states[i].armed[id]
  {
    if i < n {
      hide IsRun, IsTrace, Next, Inv, Empty, Legal;
      RunStep(now, states, steps, n);
      ArmedStays(now, states, steps, i, n - 1, id);
      StepArmed(states[n - 1], steps[n - 1], id);
    }
  }

  /**
    In every run: a start that reads the tick at state `i` and inserts at state `j`, for a timer
    that was not active, makes the timer fire exactly that many ticks after the read, unless it
    is stopped.
   */
  lemma {:induction false} StartFires(now: nat, states: seq<Wheel>, steps: seq<Step>, i: nat, j: nat, n: nat, id: nat, ticks: nat, p: bool)
    requires IsRun(states, steps) && states[0] == Empty(now) && i < j < n < |states|
    requires steps[i] == ReadStep(id, ticks, p) && !Listed(states[i].list, id) && steps[j] == InsertStep(id)
    requires forall k | i < k < j :: steps[k] != InsertStep(id)
    requires forall k | j < k < n :: steps[k] != StopStep(id)
    ensures
      var due := states[i].now + if ticks == 0 then 1 else ticks;
      var t := Timer(id, ticks, p, states[i].now);
      if states[n].now < due then t in states[n].list else (t, due) in states[n].fired
  {
    hide IsRun, IsTrace, Inv, Empty, Insert;
    RunTrace(states, steps);
    StepAt(states, steps, i + 1);
    ActiveIff(states[i], id);
    ArmedStays(now, states, steps, i + 1, j, id);
    StepAt(states, steps, j + 1);
    var t := states[j].armed[id];
    assert t == Timer(id, ticks, p, states[i].now);
    InsertMembers(states[j].list, t);
    FiresExactlyWhenDue(now, states, steps, j + 1, n, t);
  }

  // ---------------------------------------------------------------------------------
  // One-shot timers
  // ---------------------------------------------------------------------------------

  /** The log has no two entries of the timer from index `from` on. */
  ghost predicate AtMostOnce(fired: seq<(Timer, nat)>, from: nat, id: nat) {
    forall j, k | from <= j < k < |fired| :: fired[j].0.id != id || fired[k].0.id != id
  }

  ghost predicate NoneSince(fired: seq<(Timer, nat)>, from: nat, id: nat) {
    forall k | from <= k < |fired| :: fired[k].0.id != id
  }

  /** The one-shot timer is still to fire, or it is gone and has fired once at most. */
  ghost predicate OneShot(w: Wheel, from: nat, id: nat) {
    && from <= |w.fired| && id !in w.armed
    && (forall t | t in w.list && t.id == id :: !t.periodic)
    && (Listed(w.list, id) ==> NoneSince(w.fired, from, id)) && AtMostOnce(w.fired, from, id)
  }

  lemma {:induction false} RestApart(list: seq<Timer>)
    requires list != [] && Distinct(list)
    ensures forall x | x in list[1..] :: x in list && x.id != list[0].id
  {
    var rest := list[1..];
    forall x | x in rest ensures x in list && x.id != list[0].id {
      var k :| 0 <= k < |rest| && rest[k] == x;
      assert list[k + 1] == x;
    }
  }

  lemma {:induction false} LogOneMore(fired: seq<(Timer, nat)>, from: nat, id: nat, e: (Timer, nat))
    requires from <= |fired| && AtMostOnce(fired, from, id)
    ensures e.0.id != id || NoneSince(fired, from, id) ==> AtMostOnce(fired + [e], from, id)
    ensures e.0.id != id && NoneSince(fired, from, id) ==> NoneSince(fired + [e], from, id)
  {
  }

  lemma {:induction false} FireHeadOnce(w: Wheel, from: nat, id: nat)
    requires w.list != [] && Distinct(w.list) && OneShot(w, from, id)
    ensures OneShot(FireHead(w), from, id)
  {
    var t, rest := w.list[0], w.list[1..];
    assert t in w.list;
    FireHeadNow(w);
    RestApart(w.list);
    InsertMembers(rest, t.(start := w.now));
    LogOneMore(w.fired, from, id, (t, w.now));
    hide Insert, Distinct, AtMostOnce, NoneSince;
  }

  lemma {:induction false} TurnsOnce(w: Wheel, from: nat, id: nat, n: nat)
    requires InvAtCheck(w) && OneShot(w, from, id)
    ensures OneShot(Turns(w, n), from, id)
    decreases n
  {
    if n > 0 && HeadDue(w) {
      FireHeadKeeps(w);
      assert Distinct(w.list);
      FireHeadOnce(w, from, id);
      hide InvAtCheck, OneShot, FireHead, HeadDue;
      TurnsOnce(FireHead(w), from, id, n - 1);
    }
  }

  lemma {:induction false} StepOnce(w: Wheel, s: Step, from: nat, id: nat)
    requires Inv(w) && OneShot(w, from, id) && !(s.ReadStep? && s.id == id)
    ensures OneShot(Next(w, s), from, id)
  {
    hide Insert, Sorted, Distinct, Pending, Periods, FiredOnTime;
    match s
    case ReadStep(j, _, _) =>
    case InsertStep(j) =>
      if j in w.armed {
        InsertMembers(w.list, w.armed[j]);
      }
    case StopStep(j) =>
      var i := IndexOf(w.list, j);
      if i < |w.list| {
        RemoveMembers(w.list, i);
      }
    case TickStep =>
      TickReady(w);
      hide Inv, InvAtCheck;
      var w1 := w.(now := w.now + 1);
      if Ends(w1) {
        var n: nat :| !HeadDue(Turns(w1, n)) && Check(w1) == Turns(w1, n);
        TurnsOnce(w1, from, id, n);
      }
  }

  lemma {:induction false} StaysOneShot(now: nat, states: seq<Wheel>, steps: seq<Step>, i: nat, n: nat, t: Timer)
    requires IsRun(states, steps) && states[0] == Empty(now) && i <= n < |states| && t in states[i].list && !t.periodic
    requires forall k | i <= k < n :: !(steps[k].ReadStep? && steps[k].id == t.id)
    ensures OneShot(states[n], |states[i].fired|, t.id)
  {
    hide IsRun, IsTrace, Next, Empty;
    if i < n {
      hide Inv, OneShot;
      StaysOneShot(now, states, steps, i, n - 1, t);
      RunStep(now, states, steps, n);
      StepOnce(states[n - 1], steps[n - 1], |states[i].fired|, t.id);
    } else {
      RunKeepsInv(now, states, steps, i);
      var k :| 0 <= k < |states[i].list| && states[i].list[k] == t;
    }
  }

  /**
    In every run a one-shot timer that is neither stopped nor started again fires exactly once:
    no more than one entry of it joins the log, and from its tick on that entry is there.
   */
  lemma {:induction false} FiresExactlyOnce(now: nat, states: seq<Wheel>, steps: seq<Step>, i: nat, n: nat, t: Timer)
    requires IsRun(states, steps) && states[0] == Empty(now) && i <= n < |states| && t in states[i].list && !t.periodic
    requires forall k | i <= k < n :: !(steps[k].ReadStep? && steps[k].id == t.id) && steps[k] != StopStep(t.id)
    ensures AtMostOnce(states[n].fired, |states[i].fired|, t.id)
    ensures t.Due() <= states[n].now ==> FiredBetween(states[i], states[n], t)
  {
    StaysOneShot(now, states, steps, i, n, t);
    FiresExactlyWhenDue(now, states, steps, i, n, t);
    RunKeepsInv(now, states, steps, i);
    ListedNotDue(states[i], t);
    RunTrace(states, steps);
    LogPast(now, states, steps, i);
    TraceLog(states, steps, i, n);
    hide IsTrace, IsRun, Next, Inv, Empty;
    if t.Due() <= states[n].now {
      var k :| 0 <= k < |states[n].fired| && states[n].fired[k] == (t, t.Due());
      assert forall j | 0 <= j < |states[i].fired| :: states[i].fired[j] in states[i].fired && states[n].fired[j] == states[i].fired[j];
    }
  }

  // ---------------------------------------------------------------------------------
  // Periodic timers
  // ---------------------------------------------------------------------------------

  /** A periodic timer as it is after `m` firings */
  function Nth(t: Timer, m: nat): Timer {
    if m == 0 then t else Nth(t, m - 1).(start := Nth(t, m - 1).Due())
  }

  lemma {:induction false} NthDue(t: Timer, m: nat)
    requires t.initTick > 0
    ensures Nth(t, m) == t.(start := t.start + m * t.initTick)
    ensures Nth(t, m).Due() == t.start + (m + 1) * t.initTick
  {
    if m > 0 {
      NthDue(t, m - 1);
    }
  }

  /** A check restarts a periodic timer that is due, from the tick of the check. */
  lemma {:induction false} CheckRestarts(w: Wheel, t: Timer)
    requires InvAtCheck(w) && t in w.list && t.periodic && t.Due() <= w.now
    ensures t.(start := w.now) in Check(w).list
    decreases DueCount(w.list, w.now)
  {
    InvNear(w);
    HeadDueIff(w);
    var k :| 0 <= k < |w.list| && w.list[k] == t;
    assert k == 0 || w.list[0].Deadline() <= w.list[k].Deadline();
    assert t.initTick > 0;
    assert HeadDue(w);
    var h, w1 := w.list[0], FireHead(w);
    FireHeadKeeps(w);
    FireHeadNow(w);
    FireHeadCheckable(w);
    CheckKeeps(w1);
    CheckTurn(w);
    hide InvAtCheck, Inv, FireHead, HeadDue, Check, Ends, Checkable, DueCount;
    if t == h {
      CheckOutcome(w1, t.(start := w.now));
    } else {
      assert t == w.list[1..][k - 1];
      CheckRestarts(w1, t);
    }
  }

  /** After some firings, each at its tick, the timer is on the list for the next one. */
  ghost predicate Rolling(w: Wheel, t: Timer, m: nat) {
    Nth(t, m) in w.list && forall k | 0 <= k < m :: (Nth(t, k), Nth(t, k).Due()) in w.fired
  }

  lemma {:induction false} LogKept(a: seq<(Timer, nat)>, b: seq<(Timer, nat)>, t: Timer, m: nat)
    requires a <= b && forall k | 0 <= k < m :: (Nth(t, k), Nth(t, k).Due()) in a
    ensures forall k | 0 <= k < m :: (Nth(t, k), Nth(t, k).Due()) in b
  {
    hide Nth;
    forall k | 0 <= k < m ensures (Nth(t, k), Nth(t, k).Due()) in b {
      PrefixMember(a, b, (Nth(t, k), Nth(t, k).Due()));
    }
  }

  lemma {:induction false} StepRolls(w: Wheel, s: Step, t: Timer, m: nat)
    requires Inv(w) && Legal(w, s) && s != StopStep(t.id) && t.periodic && t.initTick > 0 && Rolling(w, t, m)
    ensures Rolling(Next(w, s), t, m) || Rolling(Next(w, s), t, m + 1)
  {
    NthDue(t, m);
    var x := Nth(t, m);
    ListedNotDue(w, x);
    hide Inv, Next, Nth;
    StepStays(w, s, x);
    StepLog(w, s);
    var v := Next(w, s);
    LogKept(w.fired, v.fired, t, m);
    if x.Due() <= v.now {
      TickRestarts(w, s, x);
      NthNext(t, m);
    }
  }

  lemma {:induction false} NthNext(t: Timer, m: nat)
    ensures Nth(t, m + 1) == Nth(t, m).(start := Nth(t, m).Due())
  {
  }

  lemma {:induction false} TickRestarts(w: Wheel, s: Step, x: Timer)
    requires Inv(w) && x in w.list && x.periodic && w.now < x.Due() <= Next(w, s).now
    ensures x.(start := x.Due()) in Next(w, s).list
  {
    hide Inv, Insert;
    if s == TickStep {
      hide InvAtCheck, Check;
      var w1 := w.(now := w.now + 1);
      TickReady(w);
      CheckKeeps(w1);
      CheckRestarts(w1, x);
    }
  }

  ghost predicate Rolls(w: Wheel, t: Timer) {
    exists m: nat :: Rolling(w, t, m)
  }

  lemma {:induction false} StepKeepsRolling(w: Wheel, s: Step, t: Timer)
    requires Inv(w) && Legal(w, s) && s != StopStep(t.id) && t.periodic && t.initTick > 0 && Rolls(w, t)
    ensures Rolls(Next(w, s), t)
  {
    hide Inv, Legal, Next, Rolling;
    var m: nat :| Rolling(w, t, m);
    StepRolls(w, s, t, m);
  }

  lemma {:induction false} KeepsRolling(now: nat, states: seq<Wheel>, steps: seq<Step>, i: nat, n: nat, t: Timer)
    requires IsRun(states, steps) && states[0] == Empty(now) && i <= n < |states|
    requires t in states[i].list && t.periodic && t.initTick > 0
    requires forall k | i <= k < n :: steps[k] != StopStep(t.id)
    ensures Rolls(states[n], t)
  {
    if i < n {
      hide IsRun, IsTrace, Next, Inv, Empty, Legal, Rolls;
      RunStep(now, states, steps, n);
      KeepsRolling(now, states, steps, i, n - 1, t);
      StepKeepsRolling(states[n - 1], steps[n - 1], t);
    } else {
      assert Rolling(states[n], t, 0);
    }
  }

  /** In every run a periodic timer that is not stopped has fired at every multiple of its period that has come. */
  lemma {:induction false} PeriodicFires(now: nat, states: seq<Wheel>, steps: seq<Step>, i: nat, n: nat, t: Timer, m: nat)
    requires IsRun(states, steps) && states[0] == Empty(now) && i <= n < |states| && t in states[i].list && t.periodic
    requires forall k | i <= k < n :: steps[k] != StopStep(t.id)
    requires m > 0 && t.start + m * t.initTick <= states[n].now
    ensures (t.(start := t.start + (m - 1) * t.initTick), t.start + m * t.initTick) in states[n].fired
  {
    hide IsRun, Empty, Inv, Rolls;
    RunKeepsInv(now, states, steps, i);
    PeriodPositive(states[i], t);
    RunKeepsInv(now, states, steps, n);
    KeepsRolling(now, states, steps, i, n, t);
    RolledFar(states[n], t, m);
  }

  lemma {:induction false} PeriodPositive(w: Wheel, t: Timer)
    requires Inv(w) && t in w.list && t.periodic
    ensures t.initTick > 0
  {
  }

  lemma {:induction false} RolledFar(w: Wheel, t: Timer, m: nat)
    requires Inv(w) && Rolls(w, t) && t.initTick > 0 && m > 0 && t.start + m * t.initTick <= w.now
    ensures (t.(start := t.start + (m - 1) * t.initTick), t.start + m * t.initTick) in w.fired
  {
    hide Inv, Nth;
    var c: nat :| Rolling(w, t, c);
    ListedNotDue(w, Nth(t, c));
    NthDue(t, c);
    NthDue(t, m - 1);
    NoFewer(m, c + 1, t.initTick);
  }

  lemma {:induction false} NoFewer(m: nat, c: nat, period: nat)
    ensures m * period < c * period ==> m < c
  {
    if c <= m {
      assert m * period - c * period == (m - c) * period;
    }
  }
}

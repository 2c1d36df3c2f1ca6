/**
  The timer list and the tick counter in place: entries hold 32-bit numbers that wrap around,
  and the loops compare those.
 */
module TimerList {
  import opened TimerSpec

  /** A timer as it is stored */
  datatype Entry = Entry(id: nat, initTick: nat, periodic: bool, timeoutTick: nat)

  ghost predicate Stores(e: Entry, t: Timer) {
    e.id == t.id && e.initTick == t.initTick && e.periodic == t.periodic && e.timeoutTick == t.TimeoutTick()
  }

  ghost predicate StoresAll(list: seq<Entry>, ts: seq<Timer>) {
    |list| == |ts| && forall i | 0 <= i < |list| :: Stores(list[i], ts[i])
  }

  lemma {:induction false} WrapSum(now: nat, d: nat)
    ensures (now % TICKS + d) % TICKS == (now + d) % TICKS
  {
    var q := now / TICKS;
    assert now == q * TICKS + now % TICKS;
    ModShift(now % TICKS + d, q);
  }

  lemma {:induction false} ModShift(x: nat, q: nat)
    ensures (x + q * TICKS) % TICKS == x % TICKS
  {
    if q > 0 {
      ModShift(x, q - 1);
      assert x + q * TICKS == (x + (q - 1) * TICKS) + TICKS;
      assert (x + (q - 1) * TICKS + TICKS) % TICKS == (x + (q - 1) * TICKS) % TICKS;
    }
  }

  lemma {:induction false} StoresInsert(list: seq<Entry>, ts: seq<Timer>, e: Entry, t: Timer)
    requires StoresAll(list, ts) && Stores(e, t)
    ensures Slot(ts, t) <= |list|
    ensures StoresAll(list[..Slot(ts, t)] + [e] + list[Slot(ts, t)..], Insert(ts, t))
  {
    var n := Slot(ts, t);
    var r, s := list[..n] + [e] + list[n..], Insert(ts, t);
    hide NotBefore, Slot;
    forall i | 0 <= i < |r| ensures Stores(r[i], s[i]) {
      assert r[i] == if i < n then list[i] else if i == n then e else list[i - 1];
      assert s[i] == if i < n then ts[i] else if i == n then t else ts[i - 1];
    }
  }

  class Timers {
    var tick: nat                     // rt_tick
    var list: seq<Entry>              // rt_timer_list
    var armed: map<nat, Entry>        // timers whose start has read the tick
    ghost var timers: seq<Timer>
    ghost var starting: map<nat, Timer>
    ghost var now: nat
    ghost var fired: seq<(Timer, nat)>

    ghost function Abs(): Wheel
      reads this
    {
      Wheel(timers, now, fired, starting)
    }

    ghost predicate Stored()
      reads this
    {
      && tick == now % TICKS && StoresAll(list, timers)
      && armed.Keys == starting.Keys && (forall id | id in armed :: Stores(armed[id], starting[id]))
    }

    ghost predicate Valid()
      reads this
    {
      Inv(Abs()) && Stored()
    }

    /** rt_system_timer_init, at any value of the counter */
    constructor (ghost now: nat, tick: nat)
      requires tick == now % TICKS
      ensures Valid() && Abs() == Empty(now)
    {
      this.tick, list, armed := tick, [], map[];
      timers, starting, this.now, fired := [], map[], now, [];
    }

    /** The loop of rt_timer_start that looks for the place of a timer */
    method FindSlot(timeout: nat, ghost t: Timer) returns (n: nat)
      requires Stored() && timeout == t.TimeoutTick()
      ensures n == Slot(timers, t)
    {
      n := 0;
      while n != |list|
        invariant n <= |list| && Slot(timers, t) == Slot(timers, t, n)
      {
        assert Stores(list[n], timers[n]);
        if Minus(list[n].timeoutTick, timeout) < HALF {
          break;
        }
        n := n + 1;
      }
    }

    /** rt_timer_start with interrupts off: the entry goes to its place. */
    method Place(e: Entry, ghost t: Timer)
      requires Stored() && Stores(e, t)
      modifies `list, `timers
      ensures Stored() && timers == Insert(old(timers), t)
    {
      hide StoresAll, Slot;
      var n := FindSlot(e.timeoutTick, t);
      StoresInsert(list, timers, e, t);
      list := list[..n] + [e] + list[n..];
      timers := Insert(timers, t);
    }

    /** Whether a timer is active, and where it is linked */
    method Find(id: nat) returns (i: nat)
      requires Stored()
      ensures i == IndexOf(timers, id)
    {
      i := 0;
      while i != |list|
        invariant i <= |list|
        invariant IndexOf(timers, id) == IndexOf(timers, id, i)
      {
        assert Stores(list[i], timers[i]);
        if list[i].id == id {
          break;
        }
        i := i + 1;
      }
    }

    /** rt_timer_start up to the assignment of timeout_tick, with interrupts on */
    method Read(id: nat, initTick: nat, periodic: bool) returns (ok: bool)
      requires Stored() && initTick < HALF
      modifies `armed, `starting
      ensures Stored() && Abs() == Next(old(Abs()), ReadStep(id, initTick, periodic))
      ensures old(Valid() && Legal(Abs(), ReadStep(id, initTick, periodic))) ==> Valid()
      ensures ok <==> !Active(old(Abs()), id)
    {
      hide Inv, StoresAll;
      if Valid() && Legal(Abs(), ReadStep(id, initTick, periodic)) {
        ReadKeeps(Abs(), id, initTick, periodic);
      }
      LengthsAgree(list, timers);
      var i := Find(id);
      if i != |list| {
        return false;
      }
      WrapSum(now, initTick);
      armed := armed[id := Entry(id, initTick, periodic, (tick + initTick) % TICKS)];
      starting := starting[id := Timer(id, initTick, periodic, now)];
      return true;
    }

    /** rt_timer_start with interrupts off */
    method InsertTimer(id: nat)
      requires Stored() && id in armed
      modifies `armed, `starting, `list, `timers
      ensures Stored() && Abs() == Next(old(Abs()), InsertStep(id))
      ensures old(Valid() && InTime(Abs(), id)) ==> Valid()
    {
      hide Inv, StoresAll, TimerSpec.Insert;
      if Valid() && InTime(Abs(), id) {
        InsertKeeps(Abs(), id);
      }
      Place(armed[id], starting[id]);
      armed := armed - {id};
      starting := starting - {id};
    }

    /** rt_timer_start by a caller that has interrupts off already, as the IPC calls do: always in time */
    method Start(id: nat, initTick: nat, periodic: bool) returns (ok: bool)
      requires Stored() && initTick < HALF
      modifies `armed, `starting, `list, `timers
      ensures Stored()
      ensures
        var w := Next(old(Abs()), ReadStep(id, initTick, periodic));
        Abs() == if ok then Next(w, InsertStep(id)) else w
      ensures old(Valid() && Legal(Abs(), ReadStep(id, initTick, periodic))) ==> Valid()
      ensures ok <==> !Active(old(Abs()), id)
    {
      hide Inv, StoresAll, TimerSpec.Insert;
      ok := Read(id, initTick, periodic);
      if ok {
        InsertTimer(id);
      }
    }

    /** rt_timer_stop */
    method Stop(id: nat) returns (ok: bool)
      requires Valid()
      modifies `list, `timers
      ensures Valid() && Abs() == Next(old(Abs()), StopStep(id))
      ensures ok <==> Active(old(Abs()), id)
    {
      StopKeeps(Abs(), id);
      hide Inv, StoresAll;
      LengthsAgree(list, timers);
      var i := Find(id);
      if i == |list| {
        return false;
      }
      RemoveStored(list, timers, i);
      list := list[..i] + list[i + 1..];
      timers := timers[..i] + timers[i + 1..];
      return true;
    }

    /** rt_timer_check, for the lists on which it ends */
    method Check()
      requires Stored() && Ends(Abs())
      modifies `list, `timers, `fired
      ensures Stored() && Abs() == TimerSpec.Check(old(Abs()))
    {
      hide FireHead, StoresAll, Turns;
      ghost var w := Abs();
      ghost var n: nat :| !HeadDue(Turns(w, n));
      CheckIs(w, n);
      hide TimerSpec.Check;
      while list != []
        invariant Stored() && !HeadDue(Turns(Abs(), n)) && Turns(Abs(), n) == TimerSpec.Check(w)
        decreases n
      {
        LengthsAgree(list, timers);
        HeadStored(list, timers);
        TurnsZero(Abs());
        if Minus(tick, list[0].timeoutTick) < HALF {
          assert HeadDue(Abs());
          TurnsStep(Abs(), n);
          FireFirst();
          n := n - 1;
        } else {
          break;
        }
      }
      LengthsAgree(list, timers);
      TurnsZero(Abs());
      TurnsBeyond(Abs(), 0, n);
    }

    /** One turn of the loop: the first timer fires, and starts again if it is periodic. */
    method FireFirst()
      requires Stored() && list != [] && timers != []
      modifies `list, `timers, `fired
      ensures Stored() && Abs() == FireHead(old(Abs()))
    {
      hide StoresAll, TimerSpec.Insert;
      HeadStored(list, timers);
      var e := list[0];
      ghost var t := timers[0];
      fired := fired + [(t, now)];
      TailStored(list, timers);
      list, timers := list[1..], timers[1..];
      if e.periodic {
        WrapSum(now, e.initTick);
        Place(e.(timeoutTick := (tick + e.initTick) % TICKS), t.(start := now));
      }
    }

    /** rt_tick_increase, as far as timers go */
    method Tick()
      requires Stored() && Ends(Abs().(now := now + 1))
      modifies this
      ensures Stored() && Abs() == Next(old(Abs()), TickStep)
      ensures old(Valid()) ==> Valid()
    {
      hide Inv, StoresAll, Ends, TimerSpec.Check;
      if Valid() {
        TickKeeps(Abs());
      }
      WrapSum(now, 1);
      tick := (tick + 1) % TICKS;
      now := now + 1;
      Check();
    }
  }

  lemma {:induction false} TurnsZero(w: Wheel)
    ensures Turns(w, 0) == w
  {
  }

  lemma {:induction false} LengthsAgree(list: seq<Entry>, ts: seq<Timer>)
    requires StoresAll(list, ts)
    ensures |list| == |ts|
  {
  }

  lemma {:induction false} HeadStored(list: seq<Entry>, ts: seq<Timer>)
    requires StoresAll(list, ts) && list != []
    ensures ts != [] && Stores(list[0], ts[0]) && list[0].timeoutTick < TICKS
  {
  }

  lemma {:induction false} RemoveStored(list: seq<Entry>, ts: seq<Timer>, i: nat)
    requires StoresAll(list, ts) && i < |list|
    ensures StoresAll(list[..i] + list[i + 1..], ts[..i] + ts[i + 1..])
  {
    var r, s := list[..i] + list[i + 1..], ts[..i] + ts[i + 1..];
    forall k | 0 <= k < |r| ensures Stores(r[k], s[k]) {
      assert r[k] == if k < i then list[k] else list[k + 1];
      assert s[k] == if k < i then ts[k] else ts[k + 1];
    }
  }

  lemma {:induction false} TailStored(list: seq<Entry>, ts: seq<Timer>)
    requires StoresAll(list, ts) && list != []
    ensures StoresAll(list[1..], ts[1..])
  {
  }
}

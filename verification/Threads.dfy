/** The thread operations in place: thread fields in arrays, lists by links, the bitmap in words. */
module Threads {
  import opened Bits
  import opened ReadyIndex
  import opened ThreadLists
  import opened ThreadsSpec
  import opened ThreadsProofs
  import opened ThreadsTheorems
  import ListTables

  /** The threads whose own timer has RT_TIMER_FLAG_ACTIVATED */
  ghost function ActiveSet(active: seq<bool>): set<nat> {
    set t: nat | t < |active| && active[t]
  }

  lemma {:induction false} ActiveUpdate(active: seq<bool>, t: nat)
    requires t < |active|
    ensures ActiveSet(active[t := true]) == ActiveSet(active) + {t}
    ensures ActiveSet(active[t := false]) == ActiveSet(active) - {t}
    ensures t in ActiveSet(active) <==> active[t]
  {
  }

  lemma {:induction false} NothingActive(n: nat)
    ensures ActiveSet(Repeat(false, n)) == {}
  {
  }

  method Filled<T>(n: nat, x: T) returns (a: array<T>)
    ensures fresh(a) && a[..] == Repeat(x, n)
  {
    a := new T[n](_ => x);
    assert a[..] == Repeat(x, n);
  }

  method Copied(s: seq<nat>) returns (a: array<nat>)
    ensures fresh(a) && a[..] == s
  {
    a := new nat[|s|](i requires 0 <= i < |s| => s[i]);
  }

  class Scheduler {
    const form: Form
    const initPrio: seq<nat>
    const stat: array<Stat>
    const prio: array<nat>
    const mask: array<Mask>
    const error: array<Err>
    const active: array<bool>
    ghost var pending: seq<nat>
    var group: nat                        // rt_thread_ready_priority_group
    const bytes: array<nat>               // rt_thread_ready_table
    const table: ListTables.Table         // rt_thread_priority_table, suspend lists and tlist nodes

    ghost function Abs(): Kernel
      reads this, stat, prio, mask, error, active, bytes, table
    {
      Kernel(form, stat[..], prio[..], initPrio, mask[..], error[..], pending, ActiveSet(active[..]),
             table.lists, table.at, Index(group, bytes[..]))
    }

    ghost predicate Apart() {
      && prio != bytes && table.nodes.next != prio && table.nodes.next != bytes
      && table.nodes.prev != prio && table.nodes.prev != bytes
    }

    /** The representation; `Valid` adds the invariant of the state machine. */
    ghost predicate Wired()
      reads this, stat, prio, mask, error, active, bytes, table, table.nodes, table.nodes.next, table.nodes.prev
    {
      && Apart() && table.Valid() && table.threads == stat.Length && active.Length == stat.Length && bytes.Length == GROUPS
      && Shape(Abs())
    }

    ghost predicate Valid()
      reads this, stat, prio, mask, error, active, bytes, table, table.nodes, table.nodes.next, table.nodes.prev
    {
      Wired() && Inv(Abs())
    }

    /** rt_system_scheduler_init, and threads that have been initialised */
    constructor (form: Form, initPrio: seq<nat>, waits: nat)
      requires Priorities(form, initPrio)
      ensures Valid() && Abs() == Boot(form, initPrio, waits)
    {
      hide Inv, ListTables.Laid, Shape, Priorities, ActiveSet, Levels;
      var n := |initPrio|;
      this.form, this.initPrio := form, initPrio;
      var stats := Filled(n, Fresh);
      var prios := Copied(initPrio);
      var masks := Filled(n, Mask(0, 0, 0));
      var errors := Filled(n, None);
      var actives := Filled(n, false);
      var zeros := Filled<nat>(GROUPS, 0);
      stat, prio, mask, error, active := stats, prios, masks, errors, actives;
      pending := Repeat(0, n);
      group, bytes := 0, zeros;
      table := new ListTables.Table(n, Levels(form) + waits);
      new;
      NothingActive(n);
      assert Abs() == Boot(form, initPrio, waits);
      BootInv(form, initPrio, waits);
      InvShape(Abs());
    }

    /** rt_schedule_insert_thread */
    method InsertThread(t: nat)
      requires Wired() && t < stat.Length && table.at[t] == -1 && mask[t].number < GROUPS
      modifies `group, stat, bytes, table, table.nodes.next, table.nodes.prev
      ensures Wired() && Abs() == InsertReady(old(Abs()), t)
    {
      ghost var k := Abs();
      hide Or, WithThread, ListTables.Laid, Listed;
      stat[t] := Ready;
      table.Insert(prio[t], |table.lists[prio[t]]|, table.threads + prio[t], t);
      if form.TwoLevel? {
        bytes[mask[t].number] := Or(bytes[mask[t].number], mask[t].highMask);
      }
      group := Or(group, mask[t].numberMask);
      assert stat[..] == k.stat[t := Ready];
      assert Abs() == InsertReady(k, t);
    }

    /** rt_schedule_remove_thread */
    method RemoveThread(t: nat)
      requires Wired() && t < stat.Length && mask[t].number < GROUPS
      modifies `group, bytes, table, table.nodes.next, table.nodes.prev
      ensures Wired() && Abs() == RemoveReady(old(Abs()), t)
    {
      ghost var k := Abs();
      hide AndNot, WithoutThread, ListTables.Laid, Listed;
      table.Remove(t);
      var empty := table.IsEmpty(prio[t]);
      if empty {
        if form.TwoLevel? {
          bytes[mask[t].number] := AndNot(bytes[mask[t].number], mask[t].highMask);
          if bytes[mask[t].number] == 0 {
            group := AndNot(group, mask[t].numberMask);
          }
        } else {
          group := AndNot(group, mask[t].numberMask);
        }
      }
      assert Abs() == RemoveReady(k, t);
    }

    /** rt_schedule: the thread to run next, if any thread is READY */
    method Highest() returns (t: nat)
      requires Valid() && exists u :: 0 <= u < stat.Length && stat[u] == Ready
      ensures t < stat.Length && stat[t] == Ready
      ensures forall u | 0 <= u < stat.Length && stat[u] == Ready :: prio[t] <= prio[u]
      ensures prio[t] < |table.lists| && table.lists[prio[t]] != [] && table.lists[prio[t]][0] == t
    {
      ghost var v :| 0 <= v < stat.Length && stat[v] == Ready;
      hide Inv, Lookup, ListTables.Laid, Listed;
      LookupIsBest(Abs(), v);
      var p := Lookup(form, Index(group, bytes[..]));
      t := table.Following(p, 0, table.threads + p);
    }

    /** rt_thread_startup before it resumes the thread */
    method Startup(t: nat)
      requires Valid() && Enabled(Abs(), StartupStep(t))
      modifies stat, prio, mask
      ensures Valid() && Abs() == Next(old(Abs()), StartupStep(t))
    {
      ghost var k := Abs();
      hide Inv, MaskOf, ListTables.Laid, Listed;
      NextKeeps(k, StartupStep(t));
      prio[t] := initPrio[t];
      mask[t] := MaskOf(form, prio[t]);
      stat[t] := Suspended;
      assert prio[..] == k.prio[t := k.initPrio[t]] && stat[..] == k.stat[t := Suspended];
      assert mask[..] == k.mask[t := MaskOf(form, k.initPrio[t])];
    }

    /** rt_list_remove of the thread's node, and the end of its timer */
    method Unhook(t: nat)
      requires Wired() && t < stat.Length
      modifies active, table, table.nodes.next, table.nodes.prev
      ensures Wired() && Abs() == (var k := old(Abs()); ThreadsSpec.Detach(k.(timers := k.timers - {t}), t))
    {
      ghost var k := Abs();
      hide ActiveSet, WithoutThread, ListTables.Laid, Listed;
      ActiveUpdate(active[..], t);
      table.Remove(t);
      active[t] := false;
      assert active[..] == old(active[..])[t := false];
    }

    /** rt_thread_resume up to the point where it switches interrupts on again */
    method ResumeBegin(t: nat) returns (ok: bool)
      requires Valid() && Enabled(Abs(), ResumeBeginStep(t)) && Exclusive(Abs(), ResumeBeginStep(t))
      modifies this, active, table, table.nodes.next, table.nodes.prev
      ensures Valid() && Abs() == Next(old(Abs()), ResumeBeginStep(t)) && (ok <==> old(stat[t]) == Suspended)
    {
      ghost var k := Abs();
      hide Inv, WithoutThread, ListTables.Laid, Listed;
      NextKeeps(k, ResumeBeginStep(t));
      ok := stat[t] == Suspended;
      if ok {
        pending := pending[t := pending[t] + 1];
        Unhook(t);
      }
    }

    /** The rest of rt_thread_resume */
    method ResumeEnd(t: nat)
      requires Valid() && Enabled(Abs(), ResumeEndStep(t))
      modifies this, stat, bytes, table, table.nodes.next, table.nodes.prev
      ensures Valid() && Abs() == Next(old(Abs()), ResumeEndStep(t))
    {
      ghost var k := Abs();
      PlaceOf(k, t);
      PendingShape(k, t, k.pending[t] - 1);
      NextKeeps(k, ResumeEndStep(t));
      hide Inv, InsertReady, ListTables.Laid, Shape;
      pending := pending[t := pending[t] - 1];
      assert Abs() == k.(pending := k.pending[t := k.pending[t] - 1]);
      InsertThread(t);
    }

    /** rt_thread_resume under its caller's interrupts-off section */
    method Resume(t: nat) returns (ok: bool)
      requires Valid() && Enabled(Abs(), ResumeStep(t)) && Exclusive(Abs(), ResumeStep(t))
      modifies this, stat, active, bytes, table, table.nodes.next, table.nodes.prev
      ensures Valid() && Abs() == Next(old(Abs()), ResumeStep(t)) && (ok <==> old(stat[t]) == Suspended)
    {
      ghost var k := Abs();
      PlaceOf(k, t);
      hide Inv, InsertReady, WithoutThread, ListTables.Laid, Listed;
      NextKeeps(k, ResumeStep(t));
      ok := stat[t] == Suspended;
      if ok {
        Unhook(t);
        InsertThread(t);
      }
    }

    /** rt_thread_suspend */
    method Suspend(t: nat) returns (ok: bool)
      requires Wired() && t < stat.Length && mask[t].number < GROUPS
      modifies this, stat, bytes, table, table.nodes.next, table.nodes.prev
      ensures Wired() && Abs() == ThreadsSpec.Suspend(old(Abs()), t) && (ok <==> old(stat[t]) == Ready)
    {
      ghost var k := Abs();
      hide RemoveReady, ListTables.Laid, Listed;
      ok := stat[t] == Ready;
      if ok {
        stat[t] := Suspended;
        assert stat[..] == k.stat[t := Suspended];
        RemoveThread(t);
      }
    }

    /** rt_thread_timeout, called when the timer has left the timer list */
    method Timeout(t: nat)
      requires Valid() && Enabled(Abs(), TimeoutStep(t))
      modifies this, stat, error, active, bytes, table, table.nodes.next, table.nodes.prev
      ensures Valid() && Abs() == Next(old(Abs()), TimeoutStep(t))
    {
      ghost var k := Abs();
      PlaceOf(k, t);
      hide Inv, InsertReady, WithoutThread, ListTables.Laid, Listed;
      NextKeeps(k, TimeoutStep(t));
      assert stat[t] == Suspended;
      error[t] := TimedOut;
      assert error[..] == k.error[t := TimedOut];
      Unhook(t);
      InsertThread(t);
    }

    /** rt_thread_suspend as a call of its own */
    method SuspendCall(t: nat) returns (ok: bool)
      requires Valid() && Enabled(Abs(), SuspendStep(t))
      modifies this, stat, bytes, table, table.nodes.next, table.nodes.prev
      ensures Valid() && Abs() == Next(old(Abs()), SuspendStep(t)) && (ok <==> old(stat[t]) == Ready)
    {
      ghost var k := Abs();
      PlaceOf(k, t);
      hide Inv, RemoveReady, ListTables.Laid, Listed;
      NextKeeps(k, SuspendStep(t));
      if stat[t] == Ready {
        ok := Suspend(t);
      } else {
        ok := false;
      }
    }

    /** rt_thread_sleep up to its call of the scheduler */
    method Sleep(t: nat)
      requires Valid() && Enabled(Abs(), SleepStep(t))
      modifies this, stat, active, bytes, table, table.nodes.next, table.nodes.prev
      ensures Valid() && Abs() == Next(old(Abs()), SleepStep(t))
    {
      ghost var k := Abs();
      PlaceOf(k, t);
      hide Inv, ActiveSet, ThreadsSpec.Suspend, ListTables.Laid, Listed;
      NextKeeps(k, SleepStep(t));
      var _ := Suspend(t);
      StartTimer(t);
    }

    method StartTimer(t: nat)
      requires Wired() && t < stat.Length
      modifies active
      ensures Wired() && Abs() == old(Abs()).(timers := old(Abs()).timers + {t})
    {
      hide ActiveSet, ListTables.Laid, Listed;
      ActiveUpdate(active[..], t);
      active[t] := true;
      assert active[..] == old(active[..])[t := true];
    }

    /** The loop of rt_ipc_list_suspend: the node in front of which the thread goes */
    method FindPlace(h: nat, t: nat, byPriority: bool) returns (a: nat, ghost i: nat)
      requires Wired() && t < stat.Length && h < |table.lists|
      ensures PlaceIs(table.lists[h], prio[..], prio[t], byPriority, i)
      ensures a == ListTables.Before(table.threads, table.lists, h, i)
    {
      ghost var list := table.lists[h];
      ListTables.LaidList(table.nodes.View(), table.threads, table.lists, table.at, h);
      hide ListTables.Laid, Listed;
      if !byPriority {
        return table.threads + h, |list|;
      }
      a := table.Following(h, 0, table.threads + h);
      i := 0;
      while a != table.threads + h
        invariant i <= |list| && a == ListTables.Before(table.threads, table.lists, h, i)
        invariant forall j | 0 <= j < i :: list[j] < prio.Length && prio[list[j]] <= prio[t]
        decreases |list| - i
      {
        if prio[t] < prio[a] {
          break;
        }
        a := table.Following(h, i + 1, a);
        i := i + 1;
      }
    }

    /** The running thread suspends itself on list `h`, with or without a timer. */
    method Wait(t: nat, h: nat, byPriority: bool, timed: bool) returns (ghost i: nat)
      requires Valid() && Enabled(Abs(), WaitStep(t, h, 0, timed))
      modifies this, stat, error, active, bytes, table, table.nodes.next, table.nodes.prev
      ensures PlaceIs(old(table.lists[h]), prio[..], prio[t], byPriority, i)
      ensures Valid() && Abs() == Next(old(Abs()), WaitStep(t, h, i, timed))
    {
      ghost var k := Abs();
      hide Inv, Wired, ActiveSet, ThreadsSpec.Suspend, Next, Enabled, WithThread, Shape;
      WaitReady(k, t, h, timed);
      assert mask[t] == k.mask[t];
      ClearError(t);
      var _ := Suspend(t);
      i := Hang(t, h, byPriority, timed);
    }

    method ClearError(t: nat)
      requires Wired() && t < stat.Length
      modifies error
      ensures Wired() && Abs() == old(Abs()).(error := old(Abs()).error[t := None])
    {
      hide ActiveSet, ListTables.Laid, Listed;
      error[t] := None;
      assert error[..] == old(error[..])[t := None];
    }

    /** rt_ipc_list_suspend once the thread is suspended, and the start of its timer */
    method Hang(t: nat, h: nat, byPriority: bool, timed: bool) returns (ghost i: nat)
      requires Wired() && t < stat.Length && table.at[t] == -1 && h < |table.lists|
      modifies active, table, table.nodes.next, table.nodes.prev
      ensures PlaceIs(old(table.lists[h]), prio[..], prio[t], byPriority, i)
      ensures Wired()
      ensures Abs() == (var k := old(Abs());
        k.(lists := WithThread(k.lists, h, i, t), at := k.at[t := h], timers := if timed then k.timers + {t} else k.timers))
    {
      hide ActiveSet, ListTables.Laid, Listed, WithThread;
      var a;
      a, i := FindPlace(h, t, byPriority);
      table.Insert(h, i, a, t);
      if timed {
        StartTimer(t);
      }
    }

    /** rt_thread_control with RT_THREAD_CTRL_CHANGE_PRIORITY */
    method ChangePriority(t: nat, p: nat)
      requires Valid() && Enabled(Abs(), PriorityStep(t, p))
      modifies this, stat, prio, mask, bytes, table, table.nodes.next, table.nodes.prev
      ensures Valid() && Abs() == Next(old(Abs()), PriorityStep(t, p))
    {
      ghost var k := Abs();
      PlaceOf(k, t);
      MaskNumber(form, p);
      hide Inv, RemoveReady, InsertReady, MaskOf, ListTables.Laid, Listed;
      NextKeeps(k, PriorityStep(t, p));
      if stat[t] == Ready {
        RemovedIs(k, t);
        RemoveThread(t);
        SetPriority(t, p);
        InsertThread(t);
      } else {
        SetPriority(t, p);
      }
    }

    /** The priority of a thread and its masks */
    method SetPriority(t: nat, p: nat)
      requires Wired() && t < stat.Length && p < Levels(form)
      modifies prio, mask
      ensures Wired()
      ensures Abs() == (var k := old(Abs()); k.(prio := k.prio[t := p], mask := k.mask[t := MaskOf(form, p)]))
    {
      ghost var k := Abs();
      hide MaskOf, ListTables.Laid, Listed;
      prio[t] := p;
      mask[t] := MaskOf(form, p);
      assert prio[..] == k.prio[t := p] && mask[..] == k.mask[t := MaskOf(form, p)];
    }

    /** rt_thread_yield: the links of the thread's own node say whether it has peers. */
    method Yield(t: nat)
      requires Valid() && Enabled(Abs(), YieldStep(t))
      modifies this, table, table.nodes.next, table.nodes.prev
      ensures Valid() && Abs() == Next(old(Abs()), YieldStep(t))
    {
      ghost var k := Abs();
      PlaceOf(k, t);
      hide Inv, WithThread, WithoutThread, ListTables.Laid, Listed;
      NextKeeps(k, YieldStep(t));
      if stat[t] == Ready {
        var peers := table.HasPeers(t);
        if peers {
          table.Remove(t);
          table.Insert(prio[t], |table.lists[prio[t]]|, table.threads + prio[t], t);
        }
      }
    }

    /** rt_thread_exit of the running thread, up to its call of the scheduler */
    method Exit(t: nat)
      requires Valid() && Enabled(Abs(), ExitStep(t))
      modifies this, stat, active, bytes, table, table.nodes.next, table.nodes.prev
      ensures Valid() && Abs() == Next(old(Abs()), ExitStep(t))
    {
      hide Inv, Wired, ActiveSet, RemoveReady, Next, Enabled, Shape;
      ExitReady(Abs(), t);
      assert mask[t] == Abs().mask[t];
      RemoveThread(t);
      Close(t);
    }

    method Close(t: nat)
      requires Wired() && t < stat.Length
      modifies stat, active
      ensures Wired()
      ensures Abs() == (var k := old(Abs()); k.(stat := k.stat[t := Closed], timers := k.timers - {t}))
    {
      ghost var k := Abs();
      hide ActiveSet, ListTables.Laid, Listed;
      ActiveUpdate(active[..], t);
      stat[t] := Closed;
      active[t] := false;
      assert active[..] == old(active[..])[t := false] && stat[..] == k.stat[t := Closed];
    }
  }

  /** A place in a suspend list: the end, or behind all threads that are not worse and in front of a worse one */
  ghost predicate PlaceIs(list: seq<nat>, prio: seq<nat>, p: nat, byPriority: bool, i: nat) {
    && i <= |list| && (!byPriority ==> i == |list|)
    && (byPriority ==>
         && (forall j | 0 <= j < i :: list[j] < |prio| && prio[list[j]] <= p)
         && (i < |list| ==> list[i] < |prio| && p < prio[list[i]]))
  }

  /** rt_schedule_remove_thread touches nothing but lists and bitmap. */
  lemma {:induction false} RemovedIs(k: Kernel, t: nat)
    requires Has(k, t)
    ensures
      var v := RemoveReady(k, t);
      v.form == k.form && v.stat == k.stat && v.prio == k.prio && v.mask == k.mask && v.timers == k.timers && v.at == k.at[t := -1]
  {
  }

  /** What the running thread may rely on when it starts to wait, and where each place leads */
  lemma {:induction false} WaitReady(k: Kernel, t: nat, h: nat, timed: bool)
    requires Inv(k) && Enabled(k, WaitStep(t, h, 0, timed))
    ensures t < |k.stat| && t < |k.mask| && Has(k, t) && k.mask[t].number < GROUPS && h < |k.lists|
    ensures
      var v := ThreadsSpec.Suspend(k.(error := k.error[t := None]), t);
      && |v.lists| == |k.lists| && v.lists[h] == k.lists[h] && t < |v.at| && v.at[t] == -1 && v.prio == k.prio && v.mask == k.mask
      && (forall i: nat | i <= |k.lists[h]| ::
           var w := v.(lists := WithThread(v.lists, h, i, t), at := v.at[t := h],
                       timers := if timed then v.timers + {t} else v.timers);
           w == Next(k, WaitStep(t, h, i, timed)) && Inv(w))
  {
    hide Inv;
    PlaceOf(k, t);
    ErrorKeeps(k, t, None);
    var k1 := k.(error := k.error[t := None]);
    SuspendLists(k1, t, h);
    SuspendKeeps(k1, t);
    RemovedIs(k1.(stat := k1.stat[t := Suspended]), t);
    hide RemoveReady, WithThread;
    forall i: nat | i <= |k.lists[h]| ensures Inv(Next(k, WaitStep(t, h, i, timed))) {
      NextKeeps(k, WaitStep(t, h, i, timed));
    }
  }

  lemma {:induction false} ExitReady(k: Kernel, t: nat)
    requires Inv(k) && Enabled(k, ExitStep(t))
    ensures t < |k.stat| && t < |k.mask| && Has(k, t) && k.mask[t].number < GROUPS
    ensures
      var v := RemoveReady(k, t);
      && Has(v, t) && v.stat == k.stat && v.timers == k.timers && Inv(Next(k, ExitStep(t)))
      && v.(stat := v.stat[t := Closed], timers := v.timers - {t}) == Next(k, ExitStep(t))
  {
    hide Inv;
    PlaceOf(k, t);
    NextKeeps(k, ExitStep(t));
    RemovedIs(k, t);
  }

  lemma {:induction false} PendingShape(k: Kernel, t: nat, n: nat)
    requires Has(k, t)
    ensures Shape(k.(pending := k.pending[t := n]))
  {
  }

  /** What the operations need to know about one thread */
  lemma {:induction false} PlaceOf(k: Kernel, t: nat)
    requires Inv(k) && t < |k.stat|
    ensures Shape(k)
    ensures k.stat[t] != Fresh ==> k.mask[t].number < GROUPS
    ensures t in k.timers ==> k.stat[t] == Suspended
    ensures k.pending[t] > 0 ==> k.at[t] == -1 && k.stat[t] == Suspended
    ensures k.stat[t] == Ready ==> k.at[t] == k.prio[t]
  {
    assert ThreadOk(k, t);
    MaskNumber(k.form, k.prio[t]);
    hide MaskOf;
  }

  lemma {:induction false} MaskNumber(f: Form, p: nat)
    requires p < Levels(f)
    ensures MaskOf(f, p).number < GROUPS
  {
    hide Pow2;
  }
}

/** Every thread operation keeps every thread in exactly one place and the bitmap in step. */
module ThreadsProofs {
  import opened Rings
  import opened ReadyIndex
  import opened ThreadLists
  import opened ThreadsSpec

  /** What is known of the other threads is the same. */
  ghost predicate OthersSame(k: Kernel, v: Kernel, t: nat) {
    && Shape(k) && Shape(v) && v.form == k.form && |v.stat| == |k.stat| && |v.lists| == |k.lists|
    && (forall u: nat | u < |k.stat| && u != t ::
         && v.stat[u] == k.stat[u] && v.prio[u] == k.prio[u] && v.initPrio[u] == k.initPrio[u] && v.mask[u] == k.mask[u]
         && v.at[u] == k.at[u] && v.pending[u] == k.pending[u] && (u in v.timers <==> u in k.timers))
    && (forall u | u in v.timers :: u == t || u in k.timers)
  }

  /** One thread changes, and is right again. */
  lemma {:induction false} Assemble(k: Kernel, v: Kernel, t: nat)
    requires Inv(k) && Has(k, t) && Shape(v) && |v.stat| == |k.stat| && OthersSame(k, v, t)
    requires Listed(v.lists, v.at) && Indexed(v.form, v.index, v.lists) && ThreadOk(v, t)
    ensures Inv(v)
  {
    hide Listed, Indexed, Shape, PlaceOk;
    forall u: nat | u < |v.stat| ensures ThreadOk(v, u) {
      if u != t {
        assert ThreadOk(k, u);
      }
    }
  }

  /** Appending to the ready list of its priority, with the masks of that priority */
  lemma {:induction false} InsertOk(k: Kernel, t: nat)
    requires Has(k, t) && Listed(k.lists, k.at) && k.at[t] == -1
    requires Indexed(k.form, k.index, k.lists) && k.mask[t] == MaskOf(k.form, k.prio[t])
    ensures var v := InsertReady(k, t); Shape(v) && Listed(v.lists, v.at) && Indexed(v.form, v.index, v.lists)
  {
    var p := k.prio[t];
    AttachOk(k.lists, k.at, p, |k.lists[p]|, t);
    hide Listed, Indexed, SetIndex, MaskOf;
    SetKeeps(k.form, k.index, k.lists, p, Insert(k.lists[p], |k.lists[p]|, t));
  }

  lemma {:induction false} UnlinkEmpty(l: seq<nat>, t: nat)
    requires t in l
    ensures |Unlink(l, t)| == |l| - 1
  {
  }

  /** Leaving the ready list of its priority, with the masks of that priority */
  lemma {:induction false} RemoveOk(k: Kernel, t: nat)
    requires Has(k, t) && Listed(k.lists, k.at) && k.at[t] == k.prio[t]
    requires Indexed(k.form, k.index, k.lists) && k.mask[t] == MaskOf(k.form, k.prio[t])
    ensures var v := RemoveReady(k, t); Shape(v) && Listed(v.lists, v.at) && Indexed(v.form, v.index, v.lists)
  {
    var p := k.prio[t];
    DetachOk(k.lists, k.at, t);
    OnList(k.lists, k.at, p, t);
    UnlinkEmpty(k.lists[p], t);
    hide Listed, Indexed, ClearIndex, MaskOf, Unlink;
    var l := Unlink(k.lists[p], t);
    if l == [] {
      ClearKeeps(k.form, k.index, k.lists, p);
    } else {
      SameEmptiness(k.form, k.index, k.lists, k.lists[p := l]);
    }
  }

  /** Joining or leaving a suspend list does not concern the index. */
  lemma {:induction false} WaitListOk(k: Kernel, h: nat, l: seq<nat>)
    requires Indexed(k.form, k.index, k.lists) && Levels(k.form) <= h < |k.lists|
    ensures Indexed(k.form, k.index, k.lists[h := l])
  {
    hide Indexed;
    SameEmptiness(k.form, k.index, k.lists, k.lists[h := l]);
  }

  /** Off the suspend list, if it is on one */
  lemma {:induction false} DetachWaiting(k: Kernel, t: nat)
    requires Has(k, t) && Listed(k.lists, k.at) && Indexed(k.form, k.index, k.lists)
    requires k.at[t] == -1 || Levels(k.form) <= k.at[t] < |k.lists|
    ensures var v := Detach(k, t); Shape(v) && Listed(v.lists, v.at) && Indexed(v.form, v.index, v.lists)
  {
    DetachOk(k.lists, k.at, t);
    hide Listed, Indexed, Unlink;
    if k.at[t] >= 0 {
      WaitListOk(k, k.at[t], Unlink(k.lists[k.at[t]], t));
    }
  }

  // ---------------------------------------------------------------------------------
  // The operations
  // ---------------------------------------------------------------------------------

  lemma {:induction false} StartupKeeps(k: Kernel, t: nat)
    requires Inv(k) && Has(k, t) && k.stat[t] == Fresh
    ensures Inv(Startup(k, t))
  {
    assert ThreadOk(k, t);
    hide Listed, Indexed, MaskOf;
    Assemble(k, Startup(k, t), t);
  }

  /** The first section of rt_thread_resume leaves a suspended thread on no list. */
  lemma {:induction false} ResumeBeginKeeps(k: Kernel, t: nat)
    requires Inv(k) && Has(k, t) && k.pending[t] == 0
    ensures Inv(ResumeBegin(k, t))
  {
    assert ThreadOk(k, t);
    hide Listed, Indexed, MaskOf;
    if k.stat[t] == Suspended {
      var k1 := k.(timers := k.timers - {t}, pending := k.pending[t := k.pending[t] + 1]);
      assert Shape(k1);
      DetachWaiting(k1, t);
      hide WithoutThread;
      Assemble(k, ResumeBegin(k, t), t);
    }
  }

  lemma {:induction false} ResumeEndKeeps(k: Kernel, t: nat)
    requires Inv(k) && Has(k, t)
    ensures Inv(ResumeEnd(k, t))
  {
    assert ThreadOk(k, t);
    hide Listed, Indexed, MaskOf;
    if k.pending[t] > 0 {
      var k1 := k.(pending := k.pending[t := k.pending[t] - 1]);
      assert Shape(k1);
      InsertOk(k1, t);
      hide WithThread, SetIndex;
      Assemble(k, ResumeEnd(k, t), t);
    }
  }

  lemma {:induction false} ResumeKeeps(k: Kernel, t: nat)
    requires Inv(k) && Has(k, t) && k.pending[t] == 0
    ensures Inv(Resume(k, t))
  {
    assert ThreadOk(k, t);
    hide Listed, Indexed, MaskOf;
    if k.stat[t] == Suspended {
      var k1 := k.(timers := k.timers - {t});
      assert Shape(k1);
      DetachWaiting(k1, t);
      InsertOk(Detach(k1, t), t);
      hide WithThread, WithoutThread, SetIndex;
      Assemble(k, Resume(k, t), t);
    }
  }

  lemma {:induction false} SuspendKeeps(k: Kernel, t: nat)
    requires Inv(k) && Has(k, t)
    ensures Inv(Suspend(k, t)) && Suspend(k, t).form == k.form && |Suspend(k, t).lists| == |k.lists|
    ensures k.stat[t] == Ready ==> Has(Suspend(k, t), t) && Suspend(k, t).stat[t] == Suspended && Suspend(k, t).at[t] == -1
                                   && t !in Suspend(k, t).timers && Suspend(k, t).pending[t] == 0
  {
    assert ThreadOk(k, t);
    hide Listed, Indexed, MaskOf, WithoutThread, ClearIndex;
    if k.stat[t] == Ready {
      var k1 := k.(stat := k.stat[t := Suspended]);
      assert Shape(k1);
      RemoveOk(k1, t);
      Assemble(k, Suspend(k, t), t);
    }
  }

  lemma {:induction false} ErrorKeeps(k: Kernel, t: nat, e: Err)
    requires Inv(k) && Has(k, t)
    ensures Inv(k.(error := k.error[t := e]))
  {
    hide Listed, Indexed, MaskOf;
    assert ThreadOk(k, t);
    Assemble(k, k.(error := k.error[t := e]), t);
  }

  /** Other lists are not shortened by a suspension. */
  lemma {:induction false} SuspendLists(k: Kernel, t: nat, h: nat)
    requires Inv(k) && Has(k, t) && k.stat[t] == Ready && Levels(k.form) <= h < |k.lists|
    ensures |Suspend(k, t).lists| == |k.lists| && Suspend(k, t).lists[h] == k.lists[h]
  {
    assert ThreadOk(k, t);
    hide Listed, Indexed, MaskOf, ClearIndex, Unlink;
  }

  lemma {:induction false} HangKeeps(k: Kernel, t: nat, h: nat, i: nat, timed: bool)
    requires Inv(k) && Has(k, t) && k.stat[t] == Suspended && k.at[t] == -1 && k.pending[t] == 0
    requires Levels(k.form) <= h < |k.lists| && i <= |k.lists[h]|
    ensures Inv(k.(lists := WithThread(k.lists, h, i, t), at := k.at[t := h], timers := if timed then k.timers + {t} else k.timers))
  {
    assert ThreadOk(k, t);
    hide Listed, Indexed, MaskOf;
    AttachOk(k.lists, k.at, h, i, t);
    WaitListOk(k, h, Insert(k.lists[h], i, t));
    Assemble(k, k.(lists := WithThread(k.lists, h, i, t), at := k.at[t := h], timers := if timed then k.timers + {t} else k.timers), t);
  }

  lemma {:induction false} WaitKeeps(k: Kernel, t: nat, h: nat, i: nat, timed: bool)
    requires Inv(k) && Has(k, t) && k.stat[t] == Ready && Levels(k.form) <= h < |k.lists| && i <= |k.lists[h]|
    ensures Inv(WaitOn(k, t, h, i, timed))
  {
    assert ThreadOk(k, t);
    hide Inv, Suspend, WithThread;
    var k0 := k.(error := k.error[t := None]);
    ErrorKeeps(k, t, None);
    SuspendKeeps(k0, t);
    SuspendLists(k0, t, h);
    HangKeeps(Suspend(k0, t), t, h, i, timed);
  }

  lemma {:induction false} SleepKeeps(k: Kernel, t: nat)
    requires Inv(k) && Has(k, t) && k.stat[t] == Ready
    ensures Inv(Sleep(k, t))
  {
    hide Listed, Indexed, MaskOf, Suspend;
    SuspendKeeps(k, t);
    var k1 := Suspend(k, t);
    assert ThreadOk(k1, t);
    Assemble(k1, Sleep(k, t), t);
  }

  /** rt_thread_timeout: its assertion that the thread is suspended holds. */
  lemma {:induction false} TimeoutKeeps(k: Kernel, t: nat)
    requires Inv(k) && Has(k, t) && t in k.timers
    ensures k.stat[t] == Suspended && Inv(Timeout(k, t))
  {
    assert ThreadOk(k, t);
    hide Listed, Indexed, MaskOf;
    var k1 := k.(error := k.error[t := TimedOut], timers := k.timers - {t});
    assert Shape(k1);
    DetachWaiting(k1, t);
    InsertOk(Detach(k1, t), t);
    hide WithThread, WithoutThread, SetIndex;
    Assemble(k, Timeout(k, t), t);
  }

  lemma {:induction false} PriorityKeeps(k: Kernel, t: nat, p: nat)
    requires Inv(k) && Has(k, t) && p < Levels(k.form)
    ensures Inv(ChangePriority(k, t, p))
  {
    assert ThreadOk(k, t);
    hide Listed, Indexed, MaskOf;
    if k.stat[t] == Ready {
      ReadyPriorityKeeps(k, t, p);
    } else {
      Assemble(k, ChangePriority(k, t, p), t);
    }
  }

  lemma {:induction false} RemoveSame(k: Kernel, t: nat)
    requires Has(k, t)
    ensures
      var v := RemoveReady(k, t);
      && v == k.(lists := v.lists, at := k.at[t := -1], index := v.index) && |v.lists| == |k.lists|
      && OthersSame(k, v, t)
  {
    hide ClearIndex, Unlink;
  }

  lemma {:induction false} ReadyPriorityKeeps(k: Kernel, t: nat, p: nat)
    requires Inv(k) && Has(k, t) && p < Levels(k.form) && k.stat[t] == Ready
    ensures Inv(ChangePriority(k, t, p))
  {
    assert ThreadOk(k, t);
    hide Listed, Indexed, MaskOf;
    RemoveOk(k, t);
    RemoveSame(k, t);
    var k1 := RemoveReady(k, t);
    hide RemoveReady;
    var k2 := k1.(prio := k1.prio[t := p], mask := k1.mask[t := MaskOf(k.form, p)]);
    assert Shape(k2);
    InsertOk(k2, t);
    hide WithThread, SetIndex;
    Assemble(k, InsertReady(k2, t), t);
  }

  lemma {:induction false} YieldKeeps(k: Kernel, t: nat)
    requires Inv(k) && Has(k, t)
    ensures Inv(Yield(k, t))
  {
    assert ThreadOk(k, t);
    var p := k.prio[t];
    if k.stat[t] == Ready && |k.lists[p]| > 1 {
      DetachOk(k.lists, k.at, t);
      OnList(k.lists, k.at, p, t);
      UnlinkEmpty(k.lists[p], t);
      var k1 := Detach(k, t);
      hide Listed, Indexed, MaskOf, Unlink;
      AttachOk(k1.lists, k1.at, p, |k1.lists[p]|, t);
      SameEmptiness(k.form, k.index, k.lists, Yield(k, t).lists);
      Assemble(k, Yield(k, t), t);
    }
  }

  lemma {:induction false} ExitKeeps(k: Kernel, t: nat)
    requires Inv(k) && Has(k, t) && k.stat[t] == Ready
    ensures Inv(Exit(k, t))
  {
    assert ThreadOk(k, t);
    hide Listed, Indexed, MaskOf;
    RemoveOk(k, t);
    hide WithoutThread, ClearIndex;
    Assemble(k, Exit(k, t), t);
  }

  /** Every step keeps every thread in its place and the bitmap in agreement with the lists. */
  lemma {:induction false} NextKeeps(k: Kernel, s: Step)
    requires Inv(k) && Enabled(k, s) && Exclusive(k, s)
    ensures Inv(Next(k, s))
  {
    assert Has(k, s.t);
    hide Inv, Shape, Startup, ResumeBegin, ResumeEnd, Resume, WaitOn, Sleep, Suspend, Timeout, ChangePriority, Yield, Exit;
    match s
    case StartupStep(t) => StartupKeeps(k, t);
    case ResumeBeginStep(t) => ResumeBeginKeeps(k, t);
    case ResumeEndStep(t) => ResumeEndKeeps(k, t);
    case ResumeStep(t) => ResumeKeeps(k, t);
    case WaitStep(t, h, i, timed) => WaitKeeps(k, t, h, i, timed);
    case SleepStep(t) => SleepKeeps(k, t);
    case SuspendStep(t) => SuspendKeeps(k, t);
    case TimeoutStep(t) => TimeoutKeeps(k, t);
    case PriorityStep(t, p) => PriorityKeeps(k, t, p);
    case YieldStep(t) => YieldKeeps(k, t);
    case ExitStep(t) => ExitKeeps(k, t);
  }
}

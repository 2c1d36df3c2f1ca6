/**
  Which thread is on which list: the ready lists, one for each priority, and the suspend lists
  of the IPC objects.  A thread has one list node, so `at` says where it is, or -1.
 */
module ThreadLists {
  import opened Rings

  /** List `h` holds exactly the threads that are at `h`, each once. */
  ghost predicate Listed(lists: seq<seq<nat>>, at: seq<int>) {
    && (forall h, t: nat | 0 <= h < |lists| :: multiset(lists[h])[t] == if t < |at| && at[t] == h then 1 else 0)
    && (forall t | 0 <= t < |at| :: -1 <= at[t] < |lists|)
  }

  /** rt_list_remove: out of whatever list the thread is on */
  function WithoutThread(lists: seq<seq<nat>>, at: seq<int>, t: nat): (r: seq<seq<nat>>)
    ensures |r| == |lists|
  {
    if t < |at| && 0 <= at[t] < |lists| then lists[at[t] := Unlink(lists[at[t]], t)] else lists
  }

  /** rt_list_insert_before: into list `h` in front of its element `i` */
  function WithThread(lists: seq<seq<nat>>, h: nat, i: nat, t: nat): (r: seq<seq<nat>>)
    requires h < |lists| && i <= |lists[h]|
    ensures |r| == |lists|
  {
    lists[h := Insert(lists[h], i, t)]
  }

  lemma {:induction false} Count(lists: seq<seq<nat>>, at: seq<int>, h: nat, t: nat)
    requires Listed(lists, at) && h < |lists|
    ensures multiset(lists[h])[t] == if t < |at| && at[t] == h then 1 else 0
  {
  }

  lemma {:induction false} OnList(lists: seq<seq<nat>>, at: seq<int>, h: nat, t: nat)
    requires Listed(lists, at) && h < |lists|
    ensures t in lists[h] <==> t < |at| && at[t] == h
  {
    assert t in lists[h] <==> t in multiset(lists[h]);
    assert multiset(lists[h])[t] == if t < |at| && at[t] == h then 1 else 0;
  }

  lemma {:induction false} ListNoDup(lists: seq<seq<nat>>, at: seq<int>, h: nat)
    requires Listed(lists, at) && h < |lists|
    ensures NoDup(lists[h])
  {
    var l := lists[h];
    forall i, j | 0 <= i < j < |l| ensures l[i] != l[j] {
      var x := l[j];
      assert multiset(lists[h])[x] == if x < |at| && at[x] == h then 1 else 0;
      assert l == l[..j] + [l[j]] + l[j + 1..];
      assert multiset(l) == multiset(l[..j]) + multiset{l[j]} + multiset(l[j + 1..]);
      assert l[..j][i] == l[i];
    }
  }

  lemma {:induction false} InsertCount(l: seq<nat>, i: nat, t: nat)
    requires i <= |l|
    ensures multiset(Insert(l, i, t)) == multiset(l) + multiset{t}
  {
    assert l == l[..i] + l[i..];
  }

  /** One thread moves; all others stay where they are. */
  lemma {:induction false} MoveOne(lists: seq<seq<nat>>, at: seq<int>, after: seq<seq<nat>>, to: int, t: nat, h: nat)
    requires Listed(lists, at) && t < |at| && h < |lists| && |after| == |lists| && -1 <= to < |lists|
    requires forall k | 0 <= k < |lists| && k != h :: after[k] == lists[k]
    requires forall u: nat | u != t :: multiset(after[h])[u] == multiset(lists[h])[u]
    requires multiset(after[h])[t] == if to == h then 1 else 0
    requires (at[t] == -1 || at[t] == h) && (to == -1 || to == h)
    ensures Listed(after, at[t := to])
  {
    forall k, u: nat | 0 <= k < |after|
      ensures multiset(after[k])[u] == if u < |at| && at[t := to][u] == k then 1 else 0
    {
      assert multiset(lists[k])[u] == if u < |at| && at[u] == k then 1 else 0 by {
        Count(lists, at, k, u);
      }
    }
  }

  lemma {:induction false} DetachOk(lists: seq<seq<nat>>, at: seq<int>, t: nat)
    requires Listed(lists, at) && t < |at|
    ensures Listed(WithoutThread(lists, at, t), at[t := -1])
  {
    var h := at[t];
    if h >= 0 {
      OnList(lists, at, h, t);
      UnlinkCount(lists[h], t);
      assert multiset(lists[h])[t] == 1;
      hide Unlink, Listed;
      MoveOne(lists, at, WithoutThread(lists, at, t), -1, t, h);
    } else {
      assert at[t := -1] == at;
    }
  }

  lemma {:induction false} AttachOk(lists: seq<seq<nat>>, at: seq<int>, h: nat, i: nat, t: nat)
    requires Listed(lists, at) && t < |at| && at[t] == -1 && h < |lists| && i <= |lists[h]|
    ensures Listed(WithThread(lists, h, i, t), at[t := h])
  {
    InsertCount(lists[h], i, t);
    assert multiset(lists[h])[t] == 0;
    hide Insert, Listed;
    MoveOne(lists, at, WithThread(lists, h, i, t), h, t, h);
  }
}

/**
  Threads, ready lists, suspend lists, thread timers and the ready bitmap, as a state machine.

  The lists below `Levels(form)` are the ready lists; the others belong to IPC objects.
 */
module ThreadsSpec {
  import opened Rings
  import opened ReadyIndex
  import opened ThreadLists

  datatype Stat = Fresh | Ready | Suspended | Closed

  datatype Err = None | TimedOut

  datatype Kernel = Kernel(
    form: Form,
    stat: seq<Stat>,
    prio: seq<nat>,                // current_priority
    initPrio: seq<nat>,            // init_priority
    mask: seq<Mask>,               // number, number_mask and high_mask
    error: seq<Err>,
    pending: seq<nat>,             // calls of rt_thread_resume between their two sections
    timers: set<nat>,              // threads whose own timer is active
    lists: seq<seq<nat>>,
    at: seq<int>,                  // the list each thread's node is on
    index: Index)

  // ---------------------------------------------------------------------------------
  // Primitives
  // ---------------------------------------------------------------------------------

  predicate Shape(k: Kernel) {
    && |k.prio| == |k.stat| && |k.initPrio| == |k.stat| && |k.mask| == |k.stat| && |k.error| == |k.stat|
    && |k.pending| == |k.stat| && |k.at| == |k.stat| && Levels(k.form) <= |k.lists|
    && (forall t | 0 <= t < |k.stat| :: k.prio[t] < Levels(k.form) && k.initPrio[t] < Levels(k.form))
  }

  predicate Has(k: Kernel, t: nat) {
    Shape(k) && t < |k.stat|
  }

  /** rt_list_remove of the thread's node */
  function Detach(k: Kernel, t: nat): Kernel
    requires Has(k, t)
  {
    k.(lists := WithoutThread(k.lists, k.at, t), at := k.at[t := -1])
  }

  /** rt_schedule_insert_thread: READY, at the end of its list, and the bits of its masks are set */
  function InsertReady(k: Kernel, t: nat): Kernel
    requires Has(k, t)
  {
    var p := k.prio[t];
    k.(stat := k.stat[t := Ready], lists := WithThread(k.lists, p, |k.lists[p]|, t), at := k.at[t := p],
       index := SetIndex(k.form, k.index, k.mask[t]))
  }

  /** rt_schedule_remove_thread: off its list; with the last thread of the list, the bits of its masks are cleared */
  function RemoveReady(k: Kernel, t: nat): Kernel
    requires Has(k, t)
  {
    var k1 := Detach(k, t);
    if k1.lists[k.prio[t]] == [] then k1.(index := ClearIndex(k.form, k.index, k.mask[t])) else k1
  }

  // ---------------------------------------------------------------------------------
  // Operations
  // ---------------------------------------------------------------------------------

  /** rt_thread_startup before it resumes the thread: priority, masks and status */
  function Startup(k: Kernel, t: nat): Kernel
    requires Has(k, t)
  {
    k.(prio := k.prio[t := k.initPrio[t]], mask := k.mask[t := MaskOf(k.form, k.initPrio[t])], stat := k.stat[t := Suspended])
  }

  /** rt_thread_resume, its test and first interrupts-off section: off the suspend list and the timer list */
  function ResumeBegin(k: Kernel, t: nat): Kernel
    requires Has(k, t)
  {
    if k.stat[t] != Suspended then k
    else Detach(k.(timers := k.timers - {t}, pending := k.pending[t := k.pending[t] + 1]), t)
  }

  /** rt_thread_resume, its second section: on the ready list */
  function ResumeEnd(k: Kernel, t: nat): Kernel
    requires Has(k, t)
  {
    if k.pending[t] == 0 then k
    else InsertReady(k.(pending := k.pending[t := k.pending[t] - 1]), t)
  }

  /** rt_thread_resume by a caller that has interrupts off already, as the IPC calls do */
  function Resume(k: Kernel, t: nat): Kernel
    requires Has(k, t)
  {
    if k.stat[t] != Suspended then k
    else InsertReady(Detach(k.(timers := k.timers - {t}), t), t)
  }

  /** rt_thread_suspend */
  function Suspend(k: Kernel, t: nat): Kernel
    requires Has(k, t)
  {
    if k.stat[t] != Ready then k else RemoveReady(k.(stat := k.stat[t := Suspended]), t)
  }

  /** rt_ipc_list_suspend and, for a timed wait, rt_timer_start: onto list `h` in front of its element `i` */
  function WaitOn(k: Kernel, t: nat, h: nat, i: nat, timed: bool): Kernel
    requires Has(k, t)
  {
    var k1 := Suspend(k.(error := k.error[t := None]), t);
    if h < |k1.lists| && i <= |k1.lists[h]| then
      k1.(lists := WithThread(k1.lists, h, i, t), at := k1.at[t := h], timers := if timed then k1.timers + {t} else k1.timers)
    else k
  }

  /** rt_thread_sleep */
  function Sleep(k: Kernel, t: nat): Kernel
    requires Has(k, t)
  {
    var k1 := Suspend(k, t);
    k1.(timers := k1.timers + {t})
  }

  /** rt_thread_timeout, called by rt_timer_check with interrupts off */
  function Timeout(k: Kernel, t: nat): Kernel
    requires Has(k, t)
  {
    InsertReady(Detach(k.(error := k.error[t := TimedOut], timers := k.timers - {t}), t), t)
  }

  /** rt_thread_control with RT_THREAD_CTRL_CHANGE_PRIORITY: masks are calculated again */
  function ChangePriority(k: Kernel, t: nat, p: nat): Kernel
    requires Has(k, t) && p < Levels(k.form)
  {
    if k.stat[t] == Ready then
      var k1 := RemoveReady(k, t);
      InsertReady(k1.(prio := k1.prio[t := p], mask := k1.mask[t := MaskOf(k.form, p)]), t)
    else k.(prio := k.prio[t := p], mask := k.mask[t := MaskOf(k.form, p)])
  }

  /** rt_thread_yield: behind the others of the same priority */
  function Yield(k: Kernel, t: nat): Kernel
    requires Has(k, t)
  {
    var p := k.prio[t];
    if k.stat[t] == Ready && |k.lists[p]| > 1 then
      var k1 := Detach(k, t);
      k1.(lists := WithThread(k1.lists, p, |k1.lists[p]|, t), at := k1.at[t := p])
    else k
  }

  /** rt_thread_exit of the running thread */
  function Exit(k: Kernel, t: nat): Kernel
    requires Has(k, t)
  {
    RemoveReady(k, t).(stat := k.stat[t := Closed], timers := k.timers - {t})
  }

  datatype Step =
    | StartupStep(t: nat)
    | ResumeBeginStep(t: nat)
    | ResumeEndStep(t: nat)
    | ResumeStep(t: nat)
    | WaitStep(t: nat, h: nat, i: nat, timed: bool)
    | SleepStep(t: nat)
    | SuspendStep(t: nat)
    | TimeoutStep(t: nat)
    | PriorityStep(t: nat, p: nat)
    | YieldStep(t: nat)
    | ExitStep(t: nat)

  ghost function Next(k: Kernel, s: Step): Kernel {
    if !Has(k, s.t) then k
    else
      match s
      case StartupStep(t) => Startup(k, t)
      case ResumeBeginStep(t) => ResumeBegin(k, t)
      case ResumeEndStep(t) => ResumeEnd(k, t)
      case ResumeStep(t) => Resume(k, t)
      case WaitStep(t, h, i, timed) => WaitOn(k, t, h, i, timed)
      case SleepStep(t) => Sleep(k, t)
      case SuspendStep(t) => Suspend(k, t)
      case TimeoutStep(t) => Timeout(k, t)
      case PriorityStep(t, p) => if p < Levels(k.form) then ChangePriority(k, t, p) else k
      case YieldStep(t) => Yield(k, t)
      case ExitStep(t) => Exit(k, t)
  }

  /**
    When a step can happen: a thread is started once; the thread that waits, sleeps, yields or
    exits is the running one and so READY; a call that resumes ends what it began; a thread
    timer fires only while it is active.
   */
  predicate Enabled(k: Kernel, s: Step) {
    && s.t < |k.stat| && s.t < |k.pending|
    && match s
       case StartupStep(t) => k.stat[t] == Fresh
       case ResumeEndStep(t) => k.pending[t] > 0
       case WaitStep(t, h, i, _) => k.stat[t] == Ready && Levels(k.form) <= h < |k.lists| && i <= |k.lists[h]|
       case SleepStep(t) => k.stat[t] == Ready
       case TimeoutStep(t) => t in k.timers
       case PriorityStep(_, p) => p < Levels(k.form)
       case YieldStep(t) => k.stat[t] == Ready
       case ExitStep(t) => k.stat[t] == Ready
       case _ => true
  }

  /** No second resume of a thread while one is between its two sections. */
  predicate Exclusive(k: Kernel, s: Step) {
    s.ResumeBeginStep? || s.ResumeStep? ==> s.t < |k.pending| && k.pending[s.t] == 0
  }

  // ---------------------------------------------------------------------------------
  // One place for every thread
  // ---------------------------------------------------------------------------------

  /** What is right about one thread */
  predicate PlaceOk(f: Form, n: nat, stat: Stat, prio: nat, mask: Mask, at: int, timer: bool, pending: nat) {
    && (stat != Fresh ==> mask == MaskOf(f, prio))
    && (stat == Ready ==> at == prio)
    && (stat != Ready ==> at == -1 || (stat == Suspended && Levels(f) <= at < n))
    && (timer ==> stat == Suspended)
    && pending <= 1 && (pending == 1 ==> stat == Suspended && at == -1 && !timer)
  }

  predicate ThreadOk(k: Kernel, t: nat)
    requires Has(k, t)
  {
    PlaceOk(k.form, |k.lists|, k.stat[t], k.prio[t], k.mask[t], k.at[t], t in k.timers, k.pending[t])
  }

  ghost predicate Inv(k: Kernel) {
    && Shape(k) && Listed(k.lists, k.at) && Indexed(k.form, k.index, k.lists)
    && (forall t | t in k.timers :: t < |k.stat|)
    && (forall t: nat | t < |k.stat| :: ThreadOk(k, t))
  }
}

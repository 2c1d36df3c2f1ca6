/** Results about whole runs of the thread operations. */
module ThreadsTheorems {
  import opened Rings
  import opened ReadyIndex
  import opened ThreadLists
  import opened ThreadsSpec
  import opened ThreadsProofs

  /** Threads exist, nothing is ready, nobody waits; masks are not calculated yet. */
  function Boot(form: Form, initPrio: seq<nat>, waits: nat): Kernel {
    var n := |initPrio|;
    Kernel(form, Repeat(Fresh, n), initPrio, initPrio, Repeat(Mask(0, 0, 0), n), Repeat(None, n), Repeat(0, n), {},
           Repeat([], Levels(form) + waits), Repeat(-1, n), Index(0, Repeat(0, GROUPS)))
  }

  ghost predicate Priorities(form: Form, initPrio: seq<nat>) {
    forall t | 0 <= t < |initPrio| :: initPrio[t] < Levels(form)
  }

  lemma {:induction false} BootInv(form: Form, initPrio: seq<nat>, waits: nat)
    requires Priorities(form, initPrio)
    ensures Inv(Boot(form, initPrio, waits))
  {
    var k := Boot(form, initPrio, waits);
    EmptyIndex(form, k.lists);
    hide Indexed, MaskOf;
  }

  ghost predicate IsRun(states: seq<Kernel>, steps: seq<Step>) {
    && |states| == |steps| + 1
    && (forall i | 0 <= i < |steps| ::
         Enabled(states[i], steps[i]) && Exclusive(states[i], steps[i]) && states[i + 1] == Next(states[i], steps[i]))
  }

  ghost predicate Boots(k: Kernel) {
    exists form, initPrio, waits :: Priorities(form, initPrio) && k == Boot(form, initPrio, waits)
  }

  lemma {:induction false} BootsInv(k: Kernel)
    requires Boots(k)
    ensures Inv(k)
  {
    hide Inv, Boot;
    var form, initPrio, waits :| Priorities(form, initPrio) && k == Boot(form, initPrio, waits);
    BootInv(form, initPrio, waits);
  }

  lemma {:induction false} StepAt(states: seq<Kernel>, steps: seq<Step>, n: nat)
    requires IsRun(states, steps) && 0 < n < |states|
    ensures n - 1 < |steps| && Enabled(states[n - 1], steps[n - 1]) && Exclusive(states[n - 1], steps[n - 1])
    ensures states[n] == Next(states[n - 1], steps[n - 1])
  {
    assert states[n - 1 + 1] == Next(states[n - 1], steps[n - 1]);
  }

  /** Every reachable state satisfies the invariant. */
  lemma {:induction false} RunKeepsInv(states: seq<Kernel>, steps: seq<Step>, n: nat)
    requires IsRun(states, steps) && Boots(states[0]) && n < |states|
    ensures Inv(states[n])
  {
    if n == 0 {
      hide Inv, IsRun;
      BootsInv(states[0]);
    } else {
      hide Inv, Next, Enabled, Exclusive, IsRun, Boots;
      StepAt(states, steps, n);
      RunKeepsInv(states, steps, n - 1);
      NextKeeps(states[n - 1], steps[n - 1]);
    }
  }

  /**
    In every reachable state: a thread is READY iff it is on the ready list of its current
    priority, it is on at most one list, on a suspend list only while it is suspended, its
    masks are those of its priority, and an active timer means it is suspended.
   */
  lemma {:induction false} OnePlace(states: seq<Kernel>, steps: seq<Step>, n: nat, t: nat)
    requires IsRun(states, steps) && Boots(states[0]) && n < |states| && t < |states[n].stat|
    ensures
      var k := states[n];
      && Shape(k) && (k.stat[t] == Ready <==> t in k.lists[k.prio[t]])
      && (forall h | 0 <= h < |k.lists| && t in k.lists[h] :: h == k.at[t] && NoDup(k.lists[h]))
      && (forall h | Levels(k.form) <= h < |k.lists| && t in k.lists[h] :: k.stat[t] == Suspended)
      && (k.stat[t] != Fresh ==> k.mask[t] == MaskOf(k.form, k.prio[t]))
      && (t in k.timers ==> k.stat[t] == Suspended)
  {
    RunKeepsInv(states, steps, n);
    PlaceFacts(states[n], t);
  }

  lemma {:induction false} PlaceFacts(k: Kernel, t: nat)
    requires Inv(k) && t < |k.stat|
    ensures k.stat[t] == Ready <==> t in k.lists[k.prio[t]]
    ensures forall h | 0 <= h < |k.lists| && t in k.lists[h] :: h == k.at[t] && NoDup(k.lists[h])
    ensures ThreadOk(k, t)
  {
    assert ThreadOk(k, t);
    hide Indexed, MaskOf;
    OnList(k.lists, k.at, k.prio[t], t);
    forall h | 0 <= h < |k.lists| && t in k.lists[h] ensures h == k.at[t] && NoDup(k.lists[h]) {
      OnList(k.lists, k.at, h, t);
      ListNoDup(k.lists, k.at, h);
    }
  }

  // ---------------------------------------------------------------------------------
  // rt_schedule
  // ---------------------------------------------------------------------------------

  /** Priority `p` has a READY thread first in its list, and no READY thread is better. */
  ghost predicate IsBest(k: Kernel, p: nat) {
    && Shape(k) && p < Levels(k.form) && k.lists[p] != []
    && (var u := k.lists[p][0]; u < |k.stat| && k.stat[u] == Ready && k.prio[u] == p)
    && (forall t: nat | t < |k.stat| && k.stat[t] == Ready :: p <= k.prio[t])
  }

  lemma {:induction false} LookupIsBest(k: Kernel, v: nat)
    requires Inv(k) && v < |k.stat| && k.stat[v] == Ready
    ensures IsBest(k, Lookup(k.form, k.index))
  {
    hide Indexed, MaskOf, Lookup, NoDup;
    PlaceFacts(k, v);
    LookupIsFirst(k.form, k.index, k.lists, k.prio[v]);
    var p := Lookup(k.form, k.index);
    var u := k.lists[p][0];
    assert u in k.lists[p];
    OnList(k.lists, k.at, p, u);
    PlaceFacts(k, u);
    forall t: nat | t < |k.stat| && k.stat[t] == Ready ensures p <= k.prio[t] {
      PlaceFacts(k, t);
      LookupIsFirst(k.form, k.index, k.lists, k.prio[t]);
    }
  }

  /** In every reachable state with a READY thread, in both forms, the bitmap lookup gives the best priority. */
  lemma {:induction false} ScheduleFindsBest(states: seq<Kernel>, steps: seq<Step>, n: nat, t: nat)
    requires IsRun(states, steps) && Boots(states[0]) && n < |states|
    requires t < |states[n].stat| && states[n].stat[t] == Ready
    ensures IsBest(states[n], Lookup(states[n].form, states[n].index))
  {
    hide Inv, Lookup, IsBest;
    RunKeepsInv(states, steps, n);
    LookupIsBest(states[n], t);
  }

  // ---------------------------------------------------------------------------------
  // How a wait ends
  // ---------------------------------------------------------------------------------

  /** The error of a thread changes only when it starts to wait and when its timer fires. */
  lemma {:induction false} ErrorStays(k: Kernel, s: Step, t: nat)
    requires Has(k, t) && k.stat[t] == Suspended && Enabled(k, s) && s != TimeoutStep(t)
    ensures t < |Next(k, s).error| && Next(k, s).error[t] == k.error[t]
  {
    hide WithThread, WithoutThread, SetIndex, ClearIndex, MaskOf;
  }

  lemma {:induction false} TimeoutSetsError(k: Kernel, t: nat)
    requires Has(k, t)
    ensures t < |Next(k, TimeoutStep(t)).error| && Next(k, TimeoutStep(t)).error[t] == TimedOut
  {
  }

  lemma {:induction false} WaitClearsError(k: Kernel, t: nat, h: nat, i: nat, timed: bool)
    requires Inv(k) && Has(k, t) && Enabled(k, WaitStep(t, h, i, timed))
    ensures t < |Next(k, WaitStep(t, h, i, timed)).error| && Next(k, WaitStep(t, h, i, timed)).error[t] == None
  {
    ErrorKeeps(k, t, None);
    SuspendLists(k.(error := k.error[t := None]), t, h);
    hide WithThread, WithoutThread, SetIndex, ClearIndex, MaskOf, Inv;
  }

  /** While it waits, its error is clear. */
  lemma {:induction false} WaitingClear(states: seq<Kernel>, steps: seq<Step>, i: nat, n: nat, t: nat)
    requires IsRun(states, steps) && Boots(states[0]) && i < n < |states| && t < |states[i].stat|
    requires steps[i].WaitStep? && steps[i].t == t
    requires forall k | i < k <= n :: t < |states[k].stat| && states[k].stat[t] == Suspended
    ensures t < |states[n].error| && states[n].error[t] == None
  {
    hide Inv, IsRun, Boots, Next, Enabled, Exclusive;
    RunKeepsInv(states, steps, n - 1);
    StepAt(states, steps, n);
    InvShape(states[n - 1]);
    if n == i + 1 {
      WaitClearsError(states[i], t, steps[i].h, steps[i].i, steps[i].timed);
    } else {
      WaitingClear(states, steps, i, n - 1, t);
      if steps[n - 1] == TimeoutStep(t) {
        TimeoutReady(states[n - 1], t);
      }
      ErrorStays(states[n - 1], steps[n - 1], t);
    }
  }

  lemma {:induction false} InvShape(k: Kernel)
    requires Inv(k)
    ensures Shape(k)
  {
  }

  lemma {:induction false} TimeoutReady(k: Kernel, t: nat)
    requires Has(k, t)
    ensures t < |Next(k, TimeoutStep(t)).stat| && Next(k, TimeoutStep(t)).stat[t] == Ready
  {
  }

  /**
    In every run, the call a thread waited in ends with a timeout error exactly if the step that
    made it READY again was the expiry of its timer: no wait is both granted and timed out.
   */
  lemma {:induction false} TimedOutIff(states: seq<Kernel>, steps: seq<Step>, i: nat, n: nat, t: nat)
    requires IsRun(states, steps) && Boots(states[0]) && i < n < |steps| && t < |states[i].stat|
    requires steps[i].WaitStep? && steps[i].t == t
    requires forall k | i < k <= n :: t < |states[k].stat| && states[k].stat[t] == Suspended
    requires t < |states[n + 1].stat| && states[n + 1].stat[t] == Ready
    ensures t < |states[n + 1].error| && (states[n + 1].error[t] == TimedOut <==> steps[n] == TimeoutStep(t))
  {
    RunKeepsInv(states, steps, n);
    assert Shape(states[n]);
    StepAt(states, steps, n + 1);
    WaitingClear(states, steps, i, n, t);
    hide Inv, Next, IsRun, Boots;
    if steps[n] == TimeoutStep(t) {
      TimeoutSetsError(states[n], t);
    } else {
      ErrorStays(states[n], steps[n], t);
    }
  }

  // ---------------------------------------------------------------------------------
  // Overlapping resumes
  // ---------------------------------------------------------------------------------

  /** The pending calls of rt_thread_resume on a thread come to their second section. */
  function Drained(k: Kernel, t: nat): Kernel
    decreases if t < |k.pending| then k.pending[t] else 0
  {
    if !Has(k, t) || k.pending[t] == 0 then k else Drained(ResumeEnd(k, t), t)
  }

  /**
    rt_thread_resume switches interrupts on before it inserts the thread.  Once all pending calls
    have come to their end, everything is in place exactly if no call began while another was
    pending; otherwise the thread is on its ready list twice.
   */
  lemma {:induction false} OverlapKeepsIff(k: Kernel, t: nat)
    requires Inv(k) && Has(k, t) && k.stat[t] == Suspended
    ensures Inv(Drained(ResumeBegin(k, t), t)) <==> k.pending[t] == 0
    ensures k.pending[t] > 0 ==>
      var v := Drained(ResumeBegin(k, t), t); k.prio[t] < |v.lists| && multiset(v.lists[k.prio[t]])[t] == 2
  {
    assert ThreadOk(k, t);
    var k1 := ResumeBegin(k, t);
    if k.pending[t] == 0 {
      ResumeBeginKeeps(k, t);
      ResumeEndKeeps(k1, t);
      assert Drained(k1, t) == ResumeEnd(k1, t);
    } else {
      TwiceInserted(k, t);
    }
  }

  /** Two calls of rt_thread_resume that overlap, one after the other at its end */
  lemma {:induction false} TwoResumes(k: Kernel, t: nat)
    requires Inv(k) && Has(k, t) && k.stat[t] == Suspended && k.pending[t] == 1
    ensures
      var k1 := ResumeBegin(k, t);
      && Has(k1, t) && k1.pending[t] == 2 && Has(ResumeEnd(k1, t), t) && ResumeEnd(k1, t).pending[t] == 1
      && var v := ResumeEnd(ResumeEnd(k1, t), t);
         Has(v, t) && v.pending[t] == 0 && k.prio[t] < |v.lists| && multiset(v.lists[k.prio[t]])[t] == 2
  {
    assert ThreadOk(k, t);
    var k1 := ResumeBegin(k, t);
    Count(k.lists, k.at, k.prio[t], t);
    assert k1.lists == k.lists && k1.pending[t] == 2 && Has(k1, t) && k1.prio == k.prio;
    hide Inv, ResumeEnd, Listed;
    EndOnce(k1, t);
    EndOnce(ResumeEnd(k1, t), t);
  }

  lemma {:induction false} TwiceInserted(k: Kernel, t: nat)
    requires Inv(k) && Has(k, t) && k.stat[t] == Suspended && k.pending[t] == 1
    ensures
      var v := Drained(ResumeBegin(k, t), t);
      k.prio[t] < |v.lists| && multiset(v.lists[k.prio[t]])[t] == 2 && !Inv(v)
  {
    hide Inv, ResumeBegin, ResumeEnd;
    TwoResumes(k, t);
    var k2 := ResumeEnd(ResumeBegin(k, t), t);
    var k3 := ResumeEnd(k2, t);
    assert Drained(k3, t) == k3;
    assert Drained(k2, t) == k3;
    NotListedTwice(k3, k.prio[t], t);
  }

  /** Every pending call links the thread into its ready list once more. */
  lemma {:induction false} EndOnce(k: Kernel, t: nat)
    requires Has(k, t) && k.pending[t] > 0
    ensures
      var v, p := ResumeEnd(k, t), k.prio[t];
      Has(v, t) && v.pending[t] == k.pending[t] - 1 && v.prio == k.prio && multiset(v.lists[p])[t] == multiset(k.lists[p])[t] + 1
  {
    hide SetIndex;
    InsertCount(k.lists[k.prio[t]], |k.lists[k.prio[t]]|, t);
  }

  lemma {:induction false} NotListedTwice(k: Kernel, p: nat, t: nat)
    requires p < |k.lists| && multiset(k.lists[p])[t] == 2
    ensures !Inv(k)
  {
    if Listed(k.lists, k.at) {
      Count(k.lists, k.at, p, t);
    }
  }

  /** A run in which an interrupt resumes a thread that is being started: the thread is linked twice. */
  lemma {:induction false} OverlapRun(form: Form, p: nat)
    requires p < Levels(form)
    ensures
      var k0 := Boot(form, [p], 0);
      var k1 := Next(k0, StartupStep(0));
      var k2 := Next(k1, ResumeBeginStep(0));
      var k3 := Next(k2, ResumeBeginStep(0));
      var k4 := Next(k3, ResumeEndStep(0));
      var k5 := Next(k4, ResumeEndStep(0));
      && Enabled(k0, StartupStep(0)) && Enabled(k1, ResumeBeginStep(0)) && Enabled(k2, ResumeBeginStep(0))
      && Enabled(k3, ResumeEndStep(0)) && Enabled(k4, ResumeEndStep(0)) && !Exclusive(k2, ResumeBeginStep(0))
      && p < |k5.lists| && multiset(k5.lists[p])[0] == 2
  {
    hide Inv, SetIndex, MaskOf, WithThread, WithoutThread, Listed, Indexed;
    var k0 := Boot(form, [p], 0);
    BootInv(form, [p], 0);
    var k1 := Startup(k0, 0);
    StartupKeeps(k0, 0);
    assert k1.stat[0] == Suspended && k1.pending[0] == 0 && k1.prio[0] == p;
    var k2 := ResumeBegin(k1, 0);
    ResumeBeginKeeps(k1, 0);
    InvShape(k2);
    hide Boot;
    assert k2.stat[0] == Suspended && k2.pending[0] == 1 && k2.prio == k1.prio && Has(k2, 0);
    TwoEnds(k2);
  }

  lemma {:induction false} TwoEnds(k: Kernel)
    requires Inv(k) && Has(k, 0) && k.stat[0] == Suspended && k.pending[0] == 1
    ensures
      var k3 := Next(k, ResumeBeginStep(0));
      var k4 := Next(k3, ResumeEndStep(0));
      var k5 := Next(k4, ResumeEndStep(0));
      && Enabled(k, ResumeBeginStep(0)) && Enabled(k3, ResumeEndStep(0)) && Enabled(k4, ResumeEndStep(0))
      && k.prio[0] < |k5.lists| && multiset(k5.lists[k.prio[0]])[0] == 2
  {
    hide Inv, ResumeBegin, ResumeEnd, Next;
    TwoResumes(k, 0);
    var k3 := ResumeBegin(k, 0);
    NextResumes(k, 0);
    NextResumes(k3, 0);
    NextResumes(ResumeEnd(k3, 0), 0);
  }

  lemma {:induction false} NextResumes(k: Kernel, t: nat)
    requires Has(k, t)
    ensures Next(k, ResumeBeginStep(t)) == ResumeBegin(k, t) && Next(k, ResumeEndStep(t)) == ResumeEnd(k, t)
  {
  }
}

/** What each semaphore call answers and changes, and the count of units over whole runs. */
module SemaphoreResults {
  import opened WaitQueue
  import opened SemaphoreSpec

  /** rt_sem_take succeeds exactly if there is a unit; otherwise it gives up exactly if it may not wait. */
  lemma {:induction false} TakeAnswers(s: Sem, t: nat, prio: nat, timeout: int)
    ensures
      var r := Take(s, t, prio, timeout).1;
      && (r == Ok <==> s.value > 0)
      && (r == TimedOut <==> s.value == 0 && timeout == 0)
      && (r == Blocked <==> s.value == 0 && timeout != 0)
  {
    hide Enqueue;
  }

  /** A take that succeeds uses up one unit; one that gives up changes nothing; one that blocks adds the thread to the list. */
  lemma {:induction false} TakeChanges(s: Sem, t: nat, prio: nat, timeout: int)
    ensures
      var (v, r) := Take(s, t, prio, timeout);
      && (r == Ok ==> v.value + 1 == s.value && v.waiters == s.waiters && v.granted == s.granted && v.failed == s.failed)
      && (r == TimedOut ==> v == s)
      && (r == Blocked ==>
           && v.value == 0 && v.granted == s.granted && v.failed == s.failed
           && (forall w :: w in v.waiters <==> w in s.waiters || w == Waiter(t, prio, s.clock, timeout, ())))
  {
    EnqueueMembers(s.flag, s.waiters, Waiter(t, prio, s.clock, timeout, ()));
    hide Enqueue;
  }

  /** rt_sem_release hands the unit to the first waiting thread, which alone stops waiting, or adds it to the value. */
  lemma {:induction false} ReleaseChanges(s: Sem)
    requires Inv(s)
    ensures
      var v := Release(s);
      && v.failed == s.failed
      && (s.waiters == [] ==> v.waiters == [] && v.granted == s.granted && v.value == (if s.value + 1 == VALUE_LIMIT then 0 else s.value + 1))
      && (s.waiters != [] ==>
           && v.value == s.value == 0 && v.granted == s.granted + [s.waiters[0]]
           && (forall w :: w in v.waiters <==> w in s.waiters && w.tid != s.waiters[0].tid))
  {
    if s.waiters != [] {
      assert Without(s.waiters, 0) == s.waiters[1..];
      WithoutFacts(s.flag, s.waiters, 0, s.clock);
    }
    hide QueueOk, Without;
  }

  /** A timeout fails one waiting thread and changes nothing else. */
  lemma {:induction false} TimeoutChanges(s: Sem, i: nat)
    requires Inv(s) && i < |s.waiters|
    ensures
      var v := Expire(s, i);
      && v.value == s.value && v.granted == s.granted && v.failed == s.failed[s.waiters[i].tid := TimedOut]
      && (forall w :: w in v.waiters <==> w in s.waiters && w.tid != s.waiters[i].tid)
  {
    WithoutFacts(s.flag, s.waiters, i, s.clock);
    hide QueueOk, Without;
  }

  /** Takes that succeeded at once, and releases, in the first `n` steps of a run */
  ghost function TakenAtOnce(states: seq<Sem>, steps: seq<Step>, n: nat): nat
    requires |states| == |steps| + 1 && n <= |steps|
  {
    if n == 0 then 0
    else TakenAtOnce(states, steps, n - 1) + if steps[n - 1].TakeStep? && states[n - 1].value > 0 then 1 else 0
  }

  ghost function Released(steps: seq<Step>, n: nat): nat
    requires n <= |steps|
  {
    if n == 0 then 0 else Released(steps, n - 1) + if steps[n - 1] == ReleaseStep then 1 else 0
  }

  lemma {:induction false} StepCounts(s: Sem, a: Step)
    requires Inv(s) && Enabled(s, a) && (a == ReleaseStep ==> s.waiters != [] || s.value + 1 < VALUE_LIMIT)
    ensures
      var v := Next(s, a);
      s.value + |s.granted| + (if a == ReleaseStep then 1 else 0)
      == v.value + |v.granted| + (if a.TakeStep? && s.value > 0 then 1 else 0)
  {
    hide QueueOk, Without, Enqueue;
    match a
    case TakeStep(t, p, timeout) =>
      TakeAnswers(s, t, p, timeout);
      TakeChanges(s, t, p, timeout);
    case ReleaseStep => ReleaseChanges(s);
    case TimerStep(i) => TimeoutChanges(s, i);
  }

  /**
    Over every run without overflow: what the semaphore began with and what was released is what
    is left, what was taken at once, and what was handed to waiting threads.
   */
  lemma {:induction false} UnitsOverRuns(flag: Flag, value: nat, states: seq<Sem>, steps: seq<Step>, n: nat)
    requires IsRun(states, steps) && NoOverflow(states, steps)
    requires value < VALUE_LIMIT && states[0] == Init(flag, value) && n < |states|
    ensures value + Released(steps, n) == states[n].value + TakenAtOnce(states, steps, n) + |states[n].granted|
  {
    if n > 0 {
      UnitsOverRuns(flag, value, states, steps, n - 1);
      RunConserves(flag, value, states, steps, n - 1);
      assert Enabled(states[n - 1], steps[n - 1]) && states[n - 1 + 1] == Next(states[n - 1], steps[n - 1]);
      hide Inv, Enabled, Next;
      StepCounts(states[n - 1], steps[n - 1]);
    }
  }
}

/**
  The counting semaphore as a state machine.  A release hands the unit straight to the first
  waiter, so a waiter that is woken has already taken its unit.
 */
module SemaphoreSpec {
  import opened WaitQueue

  type Taker = Waiter<()>

  const VALUE_LIMIT: nat := 0x1_0000     // the value is a 16-bit number

  datatype Sem = Sem(
    flag: Flag,
    value: nat,
    waiters: seq<Taker>,
    granted: seq<Taker>,                 // waiters that were handed a unit, in order
    failed: map<nat, Outcome>,           // waiters that ended with an error and have not returned yet
    clock: nat,
    takes: nat,                          // successful takes so far
    releases: nat                        // releases so far
  )

  /** rt_sem_take up to its return or its sleep */
  function Take(s: Sem, t: nat, prio: nat, timeout: int): (Sem, Outcome) {
    if s.value > 0 then (s.(value := s.value - 1, takes := s.takes + 1), Ok)
    else if timeout == 0 then (s, TimedOut)
    else (s.(waiters := Enqueue(s.flag, s.waiters, Waiter(t, prio, s.clock, timeout, ())), clock := s.clock + 1), Blocked)
  }

  /** rt_sem_release */
  function Release(s: Sem): Sem {
    if s.waiters == [] then s.(value := (s.value + 1) % VALUE_LIMIT, releases := s.releases + 1)
    else s.(waiters := s.waiters[1..], granted := s.granted + [s.waiters[0]], takes := s.takes + 1, releases := s.releases + 1)
  }

  /** rt_thread_timeout of the waiter with index `i` */
  function Expire(s: Sem, i: nat): Sem
    requires i < |s.waiters|
  {
    s.(waiters := Without(s.waiters, i), failed := s.failed[s.waiters[i].tid := TimedOut])
  }

  datatype Step = TakeStep(t: nat, prio: nat, timeout: int) | ReleaseStep | TimerStep(i: nat)

  ghost predicate Enabled(s: Sem, a: Step) {
    match a
    case TakeStep(t, _, _) => t !in Tids(s.waiters)
    case ReleaseStep => true
    case TimerStep(i) => i < |s.waiters| && s.waiters[i].timeout > 0
  }

  ghost function Next(s: Sem, a: Step): Sem
    requires Enabled(s, a)
  {
    match a
    case TakeStep(t, p, timeout) => Take(s, t, p, timeout).0
    case ReleaseStep => Release(s)
    case TimerStep(i) => Expire(s, i)
  }

  /** A positive value means that nobody waits. */
  ghost predicate Inv(s: Sem) {
    && s.value < VALUE_LIMIT
    && (s.value > 0 ==> s.waiters == [])
    && QueueOk(s.flag, s.clock, s.waiters)
  }

  /** Units are conserved: what there was plus what was released is what is left plus what was taken. */
  ghost predicate Conserved(s: Sem, initial: nat) {
    initial + s.releases == s.value + s.takes
  }

  lemma {:induction false} NextKeeps(s: Sem, a: Step)
    requires Inv(s) && Enabled(s, a)
    ensures Inv(Next(s, a))
  {
    hide QueueOk, Enqueue;
    match a
    case TakeStep(t, p, timeout) =>
      if s.value == 0 && timeout != 0 {
        EnqueueFacts(s.flag, s.clock, s.waiters, Waiter(t, p, s.clock, timeout, ()));
      }
    case ReleaseStep =>
      if s.waiters != [] {
        DequeueFacts(s.flag, s.clock, s.waiters);
      }
    case TimerStep(i) => WithoutQueue(s.flag, s.clock, s.waiters, i);
  }

  /** A release loses units exactly when nobody waits and the 16-bit value is at its maximum. */
  lemma {:induction false} ReleaseConservesIff(s: Sem, initial: nat)
    requires Inv(s) && Conserved(s, initial)
    ensures Conserved(Release(s), initial) <==> !(s.waiters == [] && s.value + 1 == VALUE_LIMIT)
  {
    if s.waiters == [] && s.value + 1 < VALUE_LIMIT {
      assert (s.value + 1) % VALUE_LIMIT == s.value + 1;
    }
  }

  /** A release serves the waiter that comes first: by arrival, or by priority and then arrival. */
  lemma {:induction false} ReleaseServesFirst(s: Sem, w: Taker)
    requires Inv(s) && w in s.waiters
    ensures
      var g := Release(s).granted;
      |g| == |s.granted| + 1 && g[|g| - 1] in s.waiters && (w == g[|g| - 1] || Before(s.flag, g[|g| - 1], w))
  {
    if w != s.waiters[0] {
      HeadIsFirst(s.flag, s.waiters, w);
    }
  }

  function Init(flag: Flag, value: nat): Sem {
    Sem(flag, value, [], [], map[], 0, 0, 0)
  }

  ghost predicate IsRun(states: seq<Sem>, steps: seq<Step>) {
    && |states| == |steps| + 1
    && (forall i | 0 <= i < |steps| :: Enabled(states[i], steps[i]) && states[i + 1] == Next(states[i], steps[i]))
  }

  /** No release of the run is made with the value at its maximum and nobody waiting. */
  ghost predicate NoOverflow(states: seq<Sem>, steps: seq<Step>)
    requires |states| == |steps| + 1
  {
    forall i | 0 <= i < |steps| && steps[i] == ReleaseStep :: states[i].waiters != [] || states[i].value + 1 < VALUE_LIMIT
  }

  /** Over every run without overflow: units are conserved and a positive value means no waiter. */
  lemma {:induction false} RunConserves(flag: Flag, value: nat, states: seq<Sem>, steps: seq<Step>, n: nat)
    requires IsRun(states, steps) && NoOverflow(states, steps)
    requires value < VALUE_LIMIT && states[0] == Init(flag, value) && n < |states|
    ensures Inv(states[n]) && Conserved(states[n], value)
  {
    if n > 0 {
      RunConserves(flag, value, states, steps, n - 1);
      var s, a := states[n - 1], steps[n - 1];
      NextKeeps(s, a);
      assert states[n - 1 + 1] == Next(s, a);
      if a == ReleaseStep {
        ReleaseConservesIff(s, value);
      }
    }
  }

}

/** The semaphore in place */
module Semaphore {
  import opened WaitQueue
  import opened SemaphoreSpec

  class Object {
    const flag: Flag
    var value: nat
    var waiters: seq<Taker>
    var failed: map<nat, Outcome>
    var clock: nat
    ghost var granted: seq<Taker>
    ghost var takes: nat
    ghost var releases: nat

    ghost function Abs(): Sem
      reads this
    {
      Sem(flag, value, waiters, granted, failed, clock, takes, releases)
    }

    ghost predicate Valid()
      reads this
    {
      Inv(Abs())
    }

    /** rt_sem_init */
    constructor (flag: Flag, value: nat)
      requires value < VALUE_LIMIT
      ensures Valid() && Abs() == Init(flag, value)
    {
      this.flag, this.value := flag, value;
      waiters, failed, clock, granted, takes, releases := [], map[], 0, [], 0, 0;
    }

    /** rt_sem_take, up to its return or its sleep */
    method Take(t: nat, prio: nat, timeout: int) returns (r: Outcome)
      requires Valid() && Enabled(Abs(), TakeStep(t, prio, timeout))
      modifies this
      ensures Valid() && Abs() == Next(old(Abs()), TakeStep(t, prio, timeout))
      ensures r == SemaphoreSpec.Take(old(Abs()), t, prio, timeout).1
    {
      hide Inv, Enqueue;
      NextKeeps(Abs(), TakeStep(t, prio, timeout));
      if value > 0 {
        value, takes := value - 1, takes + 1;
        return Ok;
      }
      if timeout == 0 {
        return TimedOut;
      }
      waiters := Suspend(flag, waiters, Waiter(t, prio, clock, timeout, ()));
      clock := clock + 1;
      return Blocked;
    }

    /** rt_sem_release */
    method Release()
      requires Valid()
      modifies this
      ensures Valid() && Abs() == Next(old(Abs()), ReleaseStep)
    {
      hide Inv;
      NextKeeps(Abs(), ReleaseStep);
      if waiters != [] {
        granted, takes := granted + [waiters[0]], takes + 1;
        waiters := waiters[1..];
      } else {
        value := (value + 1) % VALUE_LIMIT;
      }
      releases := releases + 1;
    }

    /** rt_thread_timeout of a thread that waits for the semaphore */
    method Timeout(i: nat)
      requires Valid() && Enabled(Abs(), TimerStep(i))
      modifies this
      ensures Valid() && Abs() == Next(old(Abs()), TimerStep(i))
    {
      hide Inv;
      NextKeeps(Abs(), TimerStep(i));
      failed := failed[waiters[i].tid := TimedOut];
      waiters := Without(waiters, i);
    }
  }
}

/**
  Mutexes with priority inheritance, as a state machine over any number of mutexes and
  threads.  One step is one interrupts-off section: a take, a release, or the expiry of a
  waiting thread's timer.  A smaller priority number is a higher priority.
 */
module MutexSpec {
  import opened WaitQueue

  type Thread = Waiter<()>

  datatype Owner = Nobody | Held(tid: nat)

  datatype Mutex = Mutex(
    flag: Flag,
    value: nat,
    owner: Owner,
    hold: nat,                // 8-bit counter
    orig: nat,                // original_priority
    waiters: seq<Thread>,
    depth: nat                // takes of the owner that it has not released yet
  )

  const NO_PRIORITY: nat := 0xff
  const HOLD_LIMIT: nat := 0x100

  datatype World = World(
    mutexes: map<nat, Mutex>,
    prio: map<nat, nat>,      // current_priority of every thread
    base: map<nat, nat>,      // the priority each thread was last given by its application
    clock: nat                // arrival stamps given out so far
  )

  // ---------------------------------------------------------------------------------
  // Steps
  // ---------------------------------------------------------------------------------

  /** rt_mutex_init */
  function Fresh(flag: Flag): Mutex {
    Mutex(flag, 1, Nobody, 0, NO_PRIORITY, [], 0)
  }

  /** rt_ipc_list_suspend compares with the priority each waiting thread has now. */
  function Refresh(q: seq<Thread>, prio: map<nat, nat>): (r: seq<Thread>)
    ensures |r| == |q| && forall i | 0 <= i < |q| :: r[i].tid == q[i].tid
  {
    seq(|q|, i requires 0 <= i < |q| => if q[i].tid in prio then q[i].(prio := prio[q[i].tid]) else q[i])
  }

  predicate Known(w: World, m: nat, t: nat) {
    m in w.mutexes && t in w.prio && (w.mutexes[m].owner.Held? ==> w.mutexes[m].owner.tid in w.prio)
  }

  /** rt_mutex_take up to the point where it returns or the thread sleeps */
  function Take(w: World, m: nat, t: nat, timeout: int): (World, Outcome)
    requires Known(w, m, t)
  {
    var x := w.mutexes[m];
    if x.owner == Held(t) then
      (w.(mutexes := w.mutexes[m := x.(hold := (x.hold + 1) % HOLD_LIMIT, depth := x.depth + 1)]), Ok)
    else if x.value > 0 then
      var x' := x.(value := x.value - 1, owner := Held(t), orig := w.prio[t],
                   hold := (x.hold + 1) % HOLD_LIMIT, depth := 1);
      (w.(mutexes := w.mutexes[m := x']), Ok)
    else if timeout == 0 then (w, TimedOut)
    else
      var boosted := if x.owner.Held? && w.prio[t] < w.prio[x.owner.tid] then w.prio[x.owner.tid := w.prio[t]] else w.prio;
      var x' := x.(waiters := Enqueue(x.flag, Refresh(x.waiters, boosted), Waiter(t, w.prio[t], w.clock, timeout, ())));
      (w.(mutexes := w.mutexes[m := x'], prio := boosted, clock := w.clock + 1), Blocked)
  }

  /** rt_mutex_release */
  function Release(w: World, m: nat, t: nat): (World, Outcome)
    requires Known(w, m, t)
  {
    var x := w.mutexes[m];
    if x.owner != Held(t) then (w, Failed)
    else
      var hold := (x.hold + HOLD_LIMIT - 1) % HOLD_LIMIT;
      if hold != 0 then (w.(mutexes := w.mutexes[m := x.(hold := hold, depth := x.depth - (if x.depth > 0 then 1 else 0))]), Ok)
      else
        var restored := w.prio[t := x.orig];
        if x.waiters == [] then
          (w.(mutexes := w.mutexes[m := x.(value := x.value + 1, owner := Nobody, orig := NO_PRIORITY, hold := 0, depth := 0)],
              prio := restored), Ok)
        else
          var h := x.waiters[0].tid;
          (w.(mutexes := w.mutexes[m := x.(owner := Held(h), orig := if h in restored then restored[h] else NO_PRIORITY, hold := 1, depth := 1, waiters := x.waiters[1..])],
              prio := restored), Ok)
  }

  /** rt_thread_timeout of the waiter with index `i` */
  function Expire(w: World, m: nat, i: nat): World
    requires m in w.mutexes && i < |w.mutexes[m].waiters|
  {
    w.(mutexes := w.mutexes[m := w.mutexes[m].(waiters := Without(w.mutexes[m].waiters, i))])
  }

  /** rt_thread_control by an application */
  function SetPriority(w: World, t: nat, p: nat): World {
    w.(prio := w.prio[t := p], base := w.base[t := p])
  }

  datatype Step =
    | TakeStep(m: nat, t: nat, timeout: int)
    | ReleaseStep(m: nat, t: nat)
    | TimerStep(m: nat, i: nat)
    | PriorityStep(t: nat, p: nat)

  // ---------------------------------------------------------------------------------
  // Ownership, for any number of mutexes per thread
  // ---------------------------------------------------------------------------------

  ghost predicate Waiting(x: Mutex, t: nat) {
    t in Tids(x.waiters)
  }

  /** The thread owns the mutex or waits for it. */
  ghost predicate Involved(x: Mutex, t: nat) {
    x.owner == Held(t) || Waiting(x, t)
  }

  /** Free with no waiter, or held by one thread that is not waiting. */
  ghost predicate OwnershipOk(x: Mutex) {
    && x.hold == x.depth < HOLD_LIMIT
    && (x.value == 0 || x.value == 1)
    && (x.value == 1 <==> x.owner == Nobody)
    && (x.value == 1 <==> x.hold == 0)
    && (x.value == 1 ==> x.waiters == [])
    && (x.owner.Held? ==> !Waiting(x, x.owner.tid))
  }

  /** The threads of a mutex are known, and wait for it once. */
  ghost predicate ThreadsOk(x: Mutex, prio: map<nat, nat>) {
    && Distinct(x.waiters)
    && (x.owner.Held? ==> x.owner.tid in prio)
    && (forall y :: y in x.waiters ==> y.tid in prio)
  }

  ghost predicate Owned(w: World) {
    forall m :: m in w.mutexes ==> OwnershipOk(w.mutexes[m]) && ThreadsOk(w.mutexes[m], w.prio)
  }

  /** What every run needs: a thread that calls is not asleep on a mutex, and nesting fits the 8-bit counter. */
  ghost predicate Fair(w: World, s: Step) {
    match s
    case TakeStep(m, t, _) =>
      && Known(w, m, t) && w.mutexes[m].hold + 1 < HOLD_LIMIT
      && (forall n :: n in w.mutexes ==> !Waiting(w.mutexes[n], t))
    case ReleaseStep(m, t) => Known(w, m, t)
    case TimerStep(m, i) => m in w.mutexes && i < |w.mutexes[m].waiters| && w.mutexes[m].waiters[i].timeout > 0
    case PriorityStep(t, _) => t in w.prio
  }

  ghost function Next(w: World, s: Step): World {
    match s
    case TakeStep(m, t, timeout) => if Known(w, m, t) then Take(w, m, t, timeout).0 else w
    case ReleaseStep(m, t) => if Known(w, m, t) then Release(w, m, t).0 else w
    case TimerStep(m, i) => if m in w.mutexes && i < |w.mutexes[m].waiters| then Expire(w, m, i) else w
    case PriorityStep(t, p) => SetPriority(w, t, p)
  }

  // ---------------------------------------------------------------------------------
  // Priority inheritance, for one mutex per thread
  // ---------------------------------------------------------------------------------

  /** The owner runs at least at the priority of every waiter. */
  ghost predicate Inherits(x: Mutex, prio: map<nat, nat>) {
    x.owner.Held? && x.owner.tid in prio ==> forall y :: y in x.waiters && y.tid in prio ==> prio[x.owner.tid] <= prio[y.tid]
  }

  ghost predicate PrioritiesOk(x: Mutex, prio: map<nat, nat>, base: map<nat, nat>) {
    && (x.owner.Held? ==> x.owner.tid in prio && x.owner.tid in base && x.orig == base[x.owner.tid])
    && (forall y :: y in x.waiters ==> y.tid in prio && prio[y.tid] == y.prio)
    && (x.flag == Prio ==> Inherits(x, prio))
  }

  ghost predicate MutexOk(x: Mutex, prio: map<nat, nat>, base: map<nat, nat>, clock: nat) {
    OwnershipOk(x) && QueueOk(x.flag, clock, x.waiters) && PrioritiesOk(x, prio, base)
  }

  /** No thread is involved with two mutexes. */
  ghost predicate OneMutexEach(w: World) {
    forall m, n, t :: m in w.mutexes && n in w.mutexes && Involved(w.mutexes[m], t) && Involved(w.mutexes[n], t) ==> m == n
  }

  ghost predicate OwnsSomething(w: World, t: nat) {
    exists m :: m in w.mutexes && w.mutexes[m].owner == Held(t)
  }

  ghost predicate Inv(w: World) {
    && w.prio.Keys == w.base.Keys
    && (forall m :: m in w.mutexes ==> MutexOk(w.mutexes[m], w.prio, w.base, w.clock))
    && OneMutexEach(w)
    && (forall t :: t in w.base && !OwnsSomething(w, t) ==> w.prio[t] == w.base[t])
  }

  /**
    The runs for which inheritance holds: in addition, a thread is not involved with another
    mutex when it takes one, and applications change only priorities of threads that are
    involved with none.
   */
  ghost predicate Legal(w: World, s: Step) {
    && Fair(w, s)
    && match s
       case TakeStep(m, t, _) => forall n :: n in w.mutexes && Involved(w.mutexes[n], t) ==> n == m
       case PriorityStep(t, _) => forall n :: n in w.mutexes ==> !Involved(w.mutexes[n], t)
       case _ => true
  }
}

/**
  Ownership and priority inheritance over whole runs, exactly where inheritance stops, and the
  mutex operations on the fields of the mutexes.
 */
module MutexTheorems {
  import opened WaitQueue
  import opened MutexSpec
  import opened MutexProofs

  function Start(flags: map<nat, Flag>, base: map<nat, nat>): World {
    World(map m | m in flags :: Fresh(flags[m]), base, base, 0)
  }

  // ---------------------------------------------------------------------------------
  // Ownership: any number of mutexes per thread, any changes of priorities
  // ---------------------------------------------------------------------------------

  ghost predicate IsFairRun(states: seq<World>, steps: seq<Step>) {
    && |states| == |steps| + 1
    && (forall i | 0 <= i < |steps| :: Fair(states[i], steps[i]) && states[i + 1] == Next(states[i], steps[i]))
  }

  lemma {:induction false} StartOwned(flags: map<nat, Flag>, base: map<nat, nat>)
    ensures Owned(Start(flags, base))
  {
    var w := Start(flags, base);
    forall m | m in w.mutexes ensures OwnershipOk(w.mutexes[m]) && ThreadsOk(w.mutexes[m], w.prio) {
      assert Tids(w.mutexes[m].waiters) == {};
    }
  }

  /** One mutex changes, and no thread disappears. */
  lemma {:induction false} OwnedStep(w: World, v: World, m: nat)
    requires Owned(w) && m in v.mutexes && v.mutexes == w.mutexes[m := v.mutexes[m]] && w.prio.Keys <= v.prio.Keys
    requires OwnershipOk(v.mutexes[m]) && ThreadsOk(v.mutexes[m], v.prio)
    ensures Owned(v)
  {
    hide OwnershipOk;
  }

  lemma {:induction false} RefreshThreads(q: seq<Thread>, prio: map<nat, nat>)
    ensures Tids(Refresh(q, prio)) == Tids(q) && (Distinct(q) ==> Distinct(Refresh(q, prio)))
    ensures forall y | y in Refresh(q, prio) :: y.tid in Tids(q)
  {
    var r := Refresh(q, prio);
    forall t ensures t in Tids(r) <==> t in Tids(q) {
      if y :| y in r && y.tid == t {
        var i :| 0 <= i < |r| && r[i] == y;
        assert q[i] in q && q[i].tid == t;
      }
      if y :| y in q && y.tid == t {
        var i :| 0 <= i < |q| && q[i] == y;
        assert r[i] in r && r[i].tid == t;
      }
    }
    forall y | y in r ensures y.tid in Tids(q) {
      assert y.tid in Tids(r);
    }
  }

  lemma {:induction false} TakeOwned(w: World, m: nat, t: nat, timeout: int)
    requires Owned(w) && Fair(w, TakeStep(m, t, timeout))
    ensures Owned(Take(w, m, t, timeout).0)
  {
    var x, v := w.mutexes[m], Take(w, m, t, timeout).0;
    assert OwnershipOk(x) && ThreadsOk(x, w.prio) && !Waiting(x, t);
    if x.owner != Held(t) && x.value == 0 && timeout != 0 {
      BlockedOwned(w, m, t, timeout);
    } else {
      if x.owner != Held(t) && x.value > 0 {
        assert Tids(x.waiters) == {};
      }
      hide Owned, Fair, Tids;
      OwnedStep(w, v, m);
    }
  }

  lemma {:induction false} BlockedOwned(w: World, m: nat, t: nat, timeout: int)
    requires Owned(w) && Fair(w, TakeStep(m, t, timeout)) && w.mutexes[m].owner != Held(t)
    requires w.mutexes[m].value == 0 && timeout != 0
    ensures Owned(Take(w, m, t, timeout).0)
  {
    var x, v := w.mutexes[m], Take(w, m, t, timeout).0;
    assert OwnershipOk(x) && ThreadsOk(x, w.prio) && !Waiting(x, t);
    var q, y := Refresh(x.waiters, v.prio), Waiter(t, w.prio[t], w.clock, timeout, ());
    RefreshThreads(x.waiters, v.prio);
    EnqueueMembers(x.flag, q, y);
    EnqueueDistinct(x.flag, q, y);
    hide Owned, Fair, Enqueue, Refresh, Distinct;
    forall z | z in v.mutexes[m].waiters ensures z.tid in v.prio {
      if z != y {
        assert z.tid in Tids(x.waiters);
      }
    }
    OwnedStep(w, v, m);
  }

  lemma {:induction false} ReleaseOwned(w: World, m: nat, t: nat)
    requires Owned(w) && Known(w, m, t)
    ensures Owned(Release(w, m, t).0)
  {
    var x, v := w.mutexes[m], Release(w, m, t).0;
    assert OwnershipOk(x) && ThreadsOk(x, w.prio);
    if x.owner == Held(t) {
      if x.hold == 1 && x.waiters != [] {
        HeadLeaves(x.flag, x.waiters);
      }
      if x.waiters == [] {
        assert Tids(x.waiters) == {};
      }
      hide Owned, Tids, Distinct;
      OwnedStep(w, v, m);
    }
  }

  lemma {:induction false} HeadLeaves(flag: Flag, q: seq<Thread>)
    requires Distinct(q) && q != []
    ensures Distinct(q[1..]) && Tids(q[1..]) == Tids(q) - {q[0].tid} && q[0] in q
    ensures forall x :: x in q[1..] <==> x in q && x.tid != q[0].tid
  {
    assert Without(q, 0) == q[1..];
    WithoutFacts(flag, q, 0, 0);
  }

  lemma {:induction false} ExpireOwned(w: World, m: nat, i: nat)
    requires Owned(w) && m in w.mutexes && i < |w.mutexes[m].waiters|
    ensures Owned(Expire(w, m, i))
  {
    var x := w.mutexes[m];
    assert OwnershipOk(x) && ThreadsOk(x, w.prio);
    WithoutFacts(x.flag, x.waiters, i, 0);
    hide Owned, Tids, Distinct, Without;
    OwnedStep(w, Expire(w, m, i), m);
  }

  /** Every step keeps every mutex owned by one awake thread, or free with nobody waiting. */
  lemma {:induction false} NextOwned(w: World, s: Step)
    requires Owned(w) && Fair(w, s)
    ensures Owned(Next(w, s))
  {
    hide Owned, Take, Release, Expire;
    match s
    case TakeStep(m, t, timeout) => TakeOwned(w, m, t, timeout);
    case ReleaseStep(m, t) => ReleaseOwned(w, m, t);
    case TimerStep(m, i) => ExpireOwned(w, m, i);
    case PriorityStep(t, p) => PriorityOwned(w, t, p);
  }

  lemma {:induction false} PriorityOwned(w: World, t: nat, p: nat)
    requires Owned(w)
    ensures Owned(SetPriority(w, t, p))
  {
    hide OwnershipOk;
  }

  lemma {:induction false} FairRunOwned(flags: map<nat, Flag>, base: map<nat, nat>, states: seq<World>, steps: seq<Step>, n: nat)
    requires IsFairRun(states, steps) && states[0] == Start(flags, base) && n < |states|
    ensures Owned(states[n])
  {
    if n == 0 {
      StartOwned(flags, base);
    } else {
      hide Owned, Next, Fair;
      FairRunOwned(flags, base, states, steps, n - 1);
      NextOwned(states[n - 1], steps[n - 1]);
      assert states[n - 1 + 1] == Next(states[n - 1], steps[n - 1]);
    }
  }

  /**
    In every state of every run, however many mutexes a thread takes: who owns, who waits, and
    what the counters say.
   */
  lemma {:induction false} OwnershipOverRuns(flags: map<nat, Flag>, base: map<nat, nat>, states: seq<World>, steps: seq<Step>, n: nat, m: nat)
    requires IsFairRun(states, steps) && states[0] == Start(flags, base) && n < |states| && m in states[n].mutexes
    ensures
      var x := states[n].mutexes[m];
      && (x.value == 0 || x.value == 1)
      && (x.value == 1 <==> x.owner == Nobody) && (x.value == 1 <==> x.hold == 0)
      && (x.value == 1 ==> x.waiters == [])
      && x.hold == x.depth
      && (x.owner.Held? ==> x.owner.tid !in Tids(x.waiters)) && Distinct(x.waiters)
  {
    FairRunOwned(flags, base, states, steps, n);
  }

  // ---------------------------------------------------------------------------------
  // Inheritance: one mutex per thread at a time
  // ---------------------------------------------------------------------------------

  ghost predicate IsRun(states: seq<World>, steps: seq<Step>) {
    && |states| == |steps| + 1
    && (forall i | 0 <= i < |steps| :: Legal(states[i], steps[i]) && states[i + 1] == Next(states[i], steps[i]))
  }

  lemma {:induction false} StartInv(flags: map<nat, Flag>, base: map<nat, nat>)
    ensures Inv(Start(flags, base))
  {
    var w := Start(flags, base);
    forall m | m in w.mutexes ensures MutexOk(w.mutexes[m], w.prio, base, 0) && forall t :: !Involved(w.mutexes[m], t) {
      assert Tids(w.mutexes[m].waiters) == {};
    }
  }

  /** Every reachable state satisfies the invariant. */
  lemma {:induction false} RunKeepsInv(flags: map<nat, Flag>, base: map<nat, nat>, states: seq<World>, steps: seq<Step>, n: nat)
    requires IsRun(states, steps) && states[0] == Start(flags, base) && n < |states|
    ensures Inv(states[n])
  {
    hide Inv, Next, Legal;
    if n == 0 {
      StartInv(flags, base);
    } else {
      RunKeepsInv(flags, base, states, steps, n - 1);
      NextKeeps(states[n - 1], steps[n - 1]);
      assert states[n - 1 + 1] == Next(states[n - 1], steps[n - 1]);
    }
  }

  /**
    In every reachable state the owner of a PRIO mutex has a priority number no greater than
    the current priority of any thread that waits for it.
   */
  lemma {:induction false} OwnerOutranksWaiters(flags: map<nat, Flag>, base: map<nat, nat>, states: seq<World>, steps: seq<Step>,
                                               n: nat, m: nat, y: Thread)
    requires IsRun(states, steps) && states[0] == Start(flags, base) && n < |states|
    requires m in states[n].mutexes && states[n].mutexes[m].flag == Prio && y in states[n].mutexes[m].waiters
    ensures
      var w := states[n];
      var x := w.mutexes[m];
      x.owner.Held? && x.owner.tid in w.prio && y.tid in w.prio && w.prio[x.owner.tid] <= w.prio[y.tid]
  {
    RunKeepsInv(flags, base, states, steps, n);
    assert MutexOk(states[n].mutexes[m], states[n].prio, states[n].base, states[n].clock);
  }

  /**
    The release that gives a mutex up restores exactly the priority its owner was given, and
    no thread that owns nothing ever runs at a borrowed priority.
   */
  lemma {:induction false} ReleaseRestores(w: World, m: nat, t: nat)
    requires Inv(w) && Legal(w, ReleaseStep(m, t)) && w.mutexes[m].owner == Held(t) && w.mutexes[m].hold == 1
    ensures
      var v := Release(w, m, t).0;
      && t in w.base && t in v.prio && v.prio[t] == w.base[t] == w.mutexes[m].orig
      && (forall u :: u in w.base && !OwnsSomething(v, u) ==> u in v.prio && v.prio[u] == w.base[u])
  {
    assert MutexOk(w.mutexes[m], w.prio, w.base, w.clock);
    var v := Release(w, m, t).0;
    assert t in v.prio && v.prio[t] == w.mutexes[m].orig && v.base == w.base;
    hide MutexOk, OneMutexEach, OwnsSomething, Release;
    ReleaseKeeps(w, m, t);
  }

  /** An acquisition records the priority the thread has at that moment. */
  lemma {:induction false} AcquireRecords(w: World, m: nat, t: nat, timeout: int)
    requires Inv(w) && Legal(w, TakeStep(m, t, timeout)) && w.mutexes[m].owner == Nobody
    ensures
      var x := Take(w, m, t, timeout).0.mutexes[m];
      x.owner == Held(t) && x.hold == 1 && x.orig == w.prio[t] == w.base[t]
  {
    assert MutexOk(w.mutexes[m], w.prio, w.base, w.clock);
    TakeKeeps(w, m, t, timeout);
    var v := Take(w, m, t, timeout).0;
    assert MutexOk(v.mutexes[m], v.prio, v.base, v.clock);
  }

  // ---------------------------------------------------------------------------------
  // Where inheritance ends: exact conditions for every step, in any run
  // ---------------------------------------------------------------------------------

  /**
    A hand-off does not raise the new owner, so after it the owner outranks its waiters
    exactly when the head of the list has the highest priority.
   */
  lemma {:induction false} HandOffInheritsIff(w: World, m: nat, t: nat)
    requires Owned(w) && Known(w, m, t) && w.mutexes[m].owner == Held(t) && w.mutexes[m].hold == 1
    requires w.mutexes[m].waiters != []
    ensures
      var v := Release(w, m, t).0;
      var ws := w.mutexes[m].waiters;
      Inherits(v.mutexes[m], v.prio) <==> forall y | y in ws :: ws[0].tid in w.prio && y.tid in w.prio && w.prio[ws[0].tid] <= w.prio[y.tid]
  {
    var x := w.mutexes[m];
    assert OwnershipOk(x) && ThreadsOk(x, w.prio);
    var ws, v := x.waiters, Release(w, m, t).0;
    HeadLeaves(x.flag, ws);
    assert ws == [ws[0]] + ws[1..];
    forall y | y in ws ensures y.tid != t && y.tid in w.prio && v.prio[y.tid] == w.prio[y.tid] {
      assert y.tid in Tids(ws);
    }
    hide Owned, Tids, Distinct, OwnershipOk;
  }

  /** On a PRIO mutex of a legal run it always has. */
  lemma {:induction false} PrioHeadIsHighest(w: World, m: nat, y: Thread)
    requires Inv(w) && m in w.mutexes && w.mutexes[m].flag == Prio && y in w.mutexes[m].waiters
    ensures w.mutexes[m].waiters[0].prio <= y.prio
  {
    var x := w.mutexes[m];
    assert MutexOk(x, w.prio, w.base, w.clock);
    if y != x.waiters[0] {
      HeadFirst(x, w.clock, y);
    }
  }

  /**
    A thread that owns two mutexes gives one up: the other one stays inherited exactly when the
    priority saved in the first is no lower than that of any thread waiting for the second.
   */
  lemma {:induction false} ReleaseKeepsOtherIff(w: World, m: nat, n: nat, t: nat)
    requires Owned(w) && Known(w, m, t) && n in w.mutexes && n != m
    requires w.mutexes[m].owner == Held(t) && w.mutexes[m].hold == 1 && w.mutexes[n].owner == Held(t)
    ensures
      var v := Release(w, m, t).0;
      Inherits(v.mutexes[n], v.prio) <==> forall y | y in w.mutexes[n].waiters :: y.tid in w.prio && w.mutexes[m].orig <= w.prio[y.tid]
  {
    var x, v := w.mutexes[n], Release(w, m, t).0;
    assert OwnershipOk(x) && ThreadsOk(x, w.prio) && OwnershipOk(w.mutexes[m]);
    forall y | y in x.waiters ensures y.tid != t && y.tid in w.prio && v.prio[y.tid] == w.prio[y.tid] {
      assert y.tid in Tids(x.waiters);
    }
    hide Owned, Tids, Distinct;
  }

  /**
    A thread blocks on a mutex whose owner itself waits for another one: raising that owner
    keeps the other mutex inherited exactly when its owner outranks the new priority already.
   */
  lemma {:induction false} RaiseKeepsOtherIff(w: World, m: nat, n: nat, t: nat, timeout: int)
    requires Owned(w) && Fair(w, TakeStep(m, t, timeout)) && n in w.mutexes && n != m && timeout != 0
    requires w.mutexes[m].value == 0 && w.mutexes[m].owner.Held? && w.mutexes[m].owner != Held(t)
    requires Waiting(w.mutexes[n], w.mutexes[m].owner.tid) && w.prio[t] < w.prio[w.mutexes[m].owner.tid]
    requires Inherits(w.mutexes[n], w.prio)
    ensures
      var v := Take(w, m, t, timeout).0;
      && w.mutexes[n].owner.Held? && w.mutexes[n].owner.tid in w.prio
      && (Inherits(v.mutexes[n], v.prio) <==> w.prio[w.mutexes[n].owner.tid] <= w.prio[t])
  {
    var x, v := w.mutexes[n], Take(w, m, t, timeout).0;
    var o := w.mutexes[m].owner.tid;
    assert OwnershipOk(x) && ThreadsOk(x, w.prio);
    var z :| z in x.waiters && z.tid == o;
    assert x.waiters != [];
    hide Owned, Fair, Enqueue, Refresh, Distinct, Tids;
    assert v.mutexes[n] == x && v.prio == w.prio[o := w.prio[t]];
    assert x.owner.tid != o;
  }

  // ---------------------------------------------------------------------------------
  // Runs in which inheritance fails
  // ---------------------------------------------------------------------------------

  lemma {:induction false} EnqueueEmpty(flag: Flag, y: Thread, prio: map<nat, nat>)
    ensures Enqueue<()>(flag, Refresh([], prio), y) == [y]
  {
  }

  lemma {:induction false} EnqueueSecond(x: Thread, y: Thread, prio: map<nat, nat>)
    requires x.tid in prio && prio[x.tid] == x.prio
    ensures Enqueue<()>(Fifo, Refresh([x], prio), y) == [x, y]
  {
    assert Refresh([x], prio) == [x];
  }

  lemma {:induction false} NobodyWaits(w: World, t: nat)
    requires forall n | n in w.mutexes :: w.mutexes[n].waiters == []
    ensures forall n | n in w.mutexes :: !Waiting(w.mutexes[n], t)
  {
  }

  /** A mutex that thread `t` holds once, with the threads that wait for it */
  function HeldBy(flag: Flag, t: nat, orig: nat, waiters: seq<Thread>): MutexSpec.Mutex {
    MutexSpec.Mutex(flag, 0, Held(t), 1, orig, waiters, 1)
  }

  // A FIFO mutex and three threads

  const FIFO_BASE: map<nat, nat> := map[1 := 5, 2 := 20, 3 := 10]
  const SECOND: Thread := Waiter(2, 20, 0, -1, ())
  const THIRD: Thread := Waiter(3, 10, 1, -1, ())

  function FifoWorld(x: MutexSpec.Mutex, clock: nat): World {
    World(map[0 := x], FIFO_BASE, FIFO_BASE, clock)
  }

  lemma {:induction false} FifoTakes()
    ensures Start(map[0 := Fifo], FIFO_BASE) == FifoWorld(Fresh(Fifo), 0)
    ensures Next(FifoWorld(Fresh(Fifo), 0), TakeStep(0, 1, -1)) == FifoWorld(HeldBy(Fifo, 1, 5, []), 0)
    ensures Next(FifoWorld(HeldBy(Fifo, 1, 5, []), 0), TakeStep(0, 2, -1)) == FifoWorld(HeldBy(Fifo, 1, 5, [SECOND]), 1)
    ensures Next(FifoWorld(HeldBy(Fifo, 1, 5, [SECOND]), 1), TakeStep(0, 3, -1)) == FifoWorld(HeldBy(Fifo, 1, 5, [SECOND, THIRD]), 2)
  {
    EnqueueEmpty(Fifo, SECOND, FIFO_BASE);
    EnqueueSecond(SECOND, THIRD, FIFO_BASE);
    hide Enqueue, Refresh;
    assert Start(map[0 := Fifo], FIFO_BASE).mutexes == map[0 := Fresh(Fifo)];
  }

  lemma {:induction false} FifoRelease()
    ensures Next(FifoWorld(HeldBy(Fifo, 1, 5, [SECOND, THIRD]), 2), ReleaseStep(0, 1)) == FifoWorld(HeldBy(Fifo, 2, 20, [THIRD]), 2)
  {
    assert FIFO_BASE[1 := 5] == FIFO_BASE;
    assert [SECOND, THIRD][1..] == [THIRD];
  }

  lemma {:induction false} FifoLegal()
    ensures Legal(FifoWorld(Fresh(Fifo), 0), TakeStep(0, 1, -1))
    ensures Legal(FifoWorld(HeldBy(Fifo, 1, 5, []), 0), TakeStep(0, 2, -1))
    ensures Legal(FifoWorld(HeldBy(Fifo, 1, 5, [SECOND]), 1), TakeStep(0, 3, -1))
    ensures Legal(FifoWorld(HeldBy(Fifo, 1, 5, [SECOND, THIRD]), 2), ReleaseStep(0, 1))
  {
    assert Tids([SECOND]) == {2};
    EmptyQueue<()>(Fifo, 0);
  }

  /**
    A FIFO mutex: thread 1 takes it, thread 2 of priority 20 and then thread 3 of priority 10
    wait; the release hands it to thread 2, below thread 3.
   */
  lemma {:induction false} FifoHandOffInverts()
    ensures
      var w0 := Start(map[0 := Fifo], FIFO_BASE);
      var w1 := Next(w0, TakeStep(0, 1, -1));
      var w2 := Next(w1, TakeStep(0, 2, -1));
      var w3 := Next(w2, TakeStep(0, 3, -1));
      var w4 := Next(w3, ReleaseStep(0, 1));
      && Legal(w0, TakeStep(0, 1, -1)) && Legal(w1, TakeStep(0, 2, -1)) && Legal(w2, TakeStep(0, 3, -1)) && Legal(w3, ReleaseStep(0, 1))
      && 0 in w3.mutexes && Inherits(w3.mutexes[0], w3.prio)
      && 0 in w4.mutexes && !Inherits(w4.mutexes[0], w4.prio)
  {
    FifoTakes();
    FifoRelease();
    FifoLegal();
    hide Next, Legal, Start;
    assert THIRD in [THIRD];
  }

  // Two mutexes and two threads

  const TWO_BASE: map<nat, nat> := map[1 := 10, 2 := 5]
  const URGENT: Thread := Waiter(2, 5, 0, -1, ())

  function TwoWorld(x: MutexSpec.Mutex, y: MutexSpec.Mutex, p: nat, clock: nat): World {
    World(map[0 := x, 1 := y], map[1 := p, 2 := 5], TWO_BASE, clock)
  }

  lemma {:induction false} TwoTakes()
    ensures Start(map[0 := Prio, 1 := Prio], TWO_BASE) == TwoWorld(Fresh(Prio), Fresh(Prio), 10, 0)
    ensures Next(TwoWorld(Fresh(Prio), Fresh(Prio), 10, 0), TakeStep(0, 1, -1)) == TwoWorld(HeldBy(Prio, 1, 10, []), Fresh(Prio), 10, 0)
    ensures Next(TwoWorld(HeldBy(Prio, 1, 10, []), Fresh(Prio), 10, 0), TakeStep(1, 1, -1))
            == TwoWorld(HeldBy(Prio, 1, 10, []), HeldBy(Prio, 1, 10, []), 10, 0)
  {
    assert Start(map[0 := Prio, 1 := Prio], TWO_BASE).mutexes == map[0 := Fresh(Prio), 1 := Fresh(Prio)];
  }

  lemma {:induction false} TwoBlocks()
    ensures Next(TwoWorld(HeldBy(Prio, 1, 10, []), HeldBy(Prio, 1, 10, []), 10, 0), TakeStep(0, 2, -1))
            == TwoWorld(HeldBy(Prio, 1, 10, [URGENT]), HeldBy(Prio, 1, 10, []), 5, 1)
  {
    EnqueueEmpty(Prio, URGENT, map[1 := 5, 2 := 5]);
    hide Enqueue, Refresh;
    assert map[1 := 10, 2 := 5][1 := 5] == map[1 := 5, 2 := 5];
  }

  lemma {:induction false} TwoReleases()
    ensures Next(TwoWorld(HeldBy(Prio, 1, 10, [URGENT]), HeldBy(Prio, 1, 10, []), 5, 1), ReleaseStep(1, 1))
            == TwoWorld(HeldBy(Prio, 1, 10, [URGENT]), Fresh(Prio), 10, 1)
  {
    assert map[1 := 5, 2 := 5][1 := 10] == map[1 := 10, 2 := 5];
  }

  lemma {:induction false} TwoFair()
    ensures Fair(TwoWorld(Fresh(Prio), Fresh(Prio), 10, 0), TakeStep(0, 1, -1))
    ensures Fair(TwoWorld(HeldBy(Prio, 1, 10, []), Fresh(Prio), 10, 0), TakeStep(1, 1, -1))
    ensures !Legal(TwoWorld(HeldBy(Prio, 1, 10, []), Fresh(Prio), 10, 0), TakeStep(1, 1, -1))
    ensures Fair(TwoWorld(HeldBy(Prio, 1, 10, []), HeldBy(Prio, 1, 10, []), 10, 0), TakeStep(0, 2, -1))
    ensures Fair(TwoWorld(HeldBy(Prio, 1, 10, [URGENT]), HeldBy(Prio, 1, 10, []), 5, 1), ReleaseStep(1, 1))
  {
    NobodyWaits(TwoWorld(Fresh(Prio), Fresh(Prio), 10, 0), 1);
    NobodyWaits(TwoWorld(HeldBy(Prio, 1, 10, []), Fresh(Prio), 10, 0), 1);
    NobodyWaits(TwoWorld(HeldBy(Prio, 1, 10, []), HeldBy(Prio, 1, 10, []), 10, 0), 2);
    hide Waiting;
    assert Involved(TwoWorld(HeldBy(Prio, 1, 10, []), Fresh(Prio), 10, 0).mutexes[0], 1);
  }

  /**
    A thread with two mutexes: thread 1 holds both, thread 2 waits for mutex 0 and has raised
    thread 1 to priority 5; releasing mutex 1 lowers thread 1 to 10 while thread 2 waits.
   */
  lemma {:induction false} TwoMutexesInvert()
    ensures
      var w0 := Start(map[0 := Prio, 1 := Prio], TWO_BASE);
      var w1 := Next(w0, TakeStep(0, 1, -1));
      var w2 := Next(w1, TakeStep(1, 1, -1));
      var w3 := Next(w2, TakeStep(0, 2, -1));
      var w4 := Next(w3, ReleaseStep(1, 1));
      && Fair(w0, TakeStep(0, 1, -1)) && Fair(w1, TakeStep(1, 1, -1)) && Fair(w2, TakeStep(0, 2, -1)) && Fair(w3, ReleaseStep(1, 1))
      && 0 in w3.mutexes && Inherits(w3.mutexes[0], w3.prio)
      && 0 in w4.mutexes && !Inherits(w4.mutexes[0], w4.prio)
      && !Legal(w1, TakeStep(1, 1, -1))
  {
    TwoTakes();
    TwoBlocks();
    TwoReleases();
    TwoFair();
    hide Next, Legal, Fair, Start;
    assert URGENT in [URGENT];
  }

  /** A nested take keeps the ownership invariant exactly while the 8-bit counter has room. */
  lemma {:induction false} NestedTakeIff(w: World, m: nat, t: nat, timeout: int)
    requires Owned(w) && Known(w, m, t) && w.mutexes[m].owner == Held(t)
    ensures OwnershipOk(Take(w, m, t, timeout).0.mutexes[m]) <==> w.mutexes[m].hold + 1 < HOLD_LIMIT
  {
    assert OwnershipOk(w.mutexes[m]);
  }
}

/** The mutex operations on the fields of mutexes and threads; a suspend list is a sequence. */
module Mutex {
  import opened WaitQueue
  import opened MutexSpec
  import opened MutexProofs
  import opened MutexTheorems

  class Kernel {
    var mutexes: map<nat, MutexSpec.Mutex>
    var prio: map<nat, nat>
    ghost var base: map<nat, nat>
    var clock: nat

    ghost function Abs(): World
      reads this
    {
      World(mutexes, prio, base, clock)
    }

    ghost predicate Valid()
      reads this
    {
      Owned(Abs())
    }

    /** rt_mutex_init of some mutexes, among threads with the given priorities */
    constructor (flags: map<nat, Flag>, base: map<nat, nat>)
      ensures Valid() && Abs() == Start(flags, base)
    {
      mutexes := map m | m in flags :: Fresh(flags[m]);
      prio, clock, this.base := base, 0, base;
      StartOwned(flags, base);
    }

    /** The walk of rt_ipc_list_suspend, which reads the current priority of each waiting thread */
    method SuspendOn(flag: Flag, q: seq<Thread>, y: Thread) returns (r: seq<Thread>)
      ensures r == Enqueue(flag, Refresh(q, prio), y)
    {
      r := Suspend(flag, Refresh(q, prio), y);
    }

    /** rt_mutex_take, up to its return or its sleep */
    method Take(m: nat, t: nat, timeout: int) returns (r: Outcome)
      requires Valid() && Fair(Abs(), TakeStep(m, t, timeout))
      modifies this
      ensures Valid() && Abs() == Next(old(Abs()), TakeStep(m, t, timeout))
      ensures old(Inv(Abs()) && Legal(Abs(), TakeStep(m, t, timeout))) ==> Inv(Abs())
      ensures r == MutexSpec.Take(old(Abs()), m, t, timeout).1
    {
      hide Inv, Owned, Enqueue, Involved, Refresh;
      NextOwned(Abs(), TakeStep(m, t, timeout));
      if Inv(Abs()) && Legal(Abs(), TakeStep(m, t, timeout)) {
        NextKeeps(Abs(), TakeStep(m, t, timeout));
      }
      hide Legal;
      var x := mutexes[m];
      if x.owner == Held(t) {
        mutexes := mutexes[m := x.(hold := (x.hold + 1) % HOLD_LIMIT, depth := x.depth + 1)];
        return Ok;
      }
      if x.value > 0 {
        mutexes := mutexes[m := x.(value := x.value - 1, owner := Held(t), orig := prio[t],
                                   hold := (x.hold + 1) % HOLD_LIMIT, depth := 1)];
        return Ok;
      }
      if timeout == 0 {
        return TimedOut;
      }
      var y := Waiter(t, prio[t], clock, timeout, ());
      if x.owner.Held? && prio[t] < prio[x.owner.tid] {
        prio := prio[x.owner.tid := prio[t]];
      }
      var ws := SuspendOn(x.flag, x.waiters, y);
      mutexes, clock := mutexes[m := x.(waiters := ws)], clock + 1;
      return Blocked;
    }

    /** rt_mutex_release */
    method Release(m: nat, t: nat) returns (r: Outcome)
      requires Valid() && Known(Abs(), m, t)
      modifies this
      ensures Valid() && Abs() == Next(old(Abs()), ReleaseStep(m, t))
      ensures old(Inv(Abs())) ==> Inv(Abs())
      ensures r == MutexSpec.Release(old(Abs()), m, t).1
    {
      ghost var w := Abs();
      assert OwnershipOk(w.mutexes[m]) && ThreadsOk(w.mutexes[m], w.prio);
      hide Inv, Owned;
      NextOwned(w, ReleaseStep(m, t));
      if Inv(w) {
        NextKeeps(w, ReleaseStep(m, t));
      }
      var x := mutexes[m];
      if x.owner != Held(t) {
        return Failed;
      }
      var hold := (x.hold + HOLD_LIMIT - 1) % HOLD_LIMIT;
      if hold != 0 {
        mutexes := mutexes[m := x.(hold := hold, depth := x.depth - (if x.depth > 0 then 1 else 0))];
        return Ok;
      }
      if x.orig != prio[t] {
        prio := prio[t := x.orig];
      }
      assert prio == w.prio[t := x.orig];
      if x.waiters != [] {
        var h := x.waiters[0].tid;
        assert x.waiters[0] in x.waiters;
        mutexes := mutexes[m := x.(owner := Held(h), orig := prio[h], hold := 1, depth := 1, waiters := x.waiters[1..])];
      } else {
        mutexes := mutexes[m := x.(value := x.value + 1, owner := Nobody, orig := NO_PRIORITY, hold := 0, depth := 0)];
      }
      return Ok;
    }

    /** rt_thread_timeout of a thread that waits for a mutex */
    method Timeout(m: nat, i: nat)
      requires Valid() && Fair(Abs(), TimerStep(m, i))
      modifies this
      ensures Valid() && Abs() == Next(old(Abs()), TimerStep(m, i))
      ensures old(Inv(Abs())) ==> Inv(Abs())
    {
      hide Inv, Owned;
      NextOwned(Abs(), TimerStep(m, i));
      if Inv(Abs()) {
        NextKeeps(Abs(), TimerStep(m, i));
      }
      mutexes := mutexes[m := mutexes[m].(waiters := Without(mutexes[m].waiters, i))];
    }
  }
}

/**
  What each mutex call answers and what it changes, and who can take ownership away, in any run
  and for any number of mutexes per thread.
 */
module MutexOutcomes {
  import opened WaitQueue
  import opened MutexSpec
  import opened MutexTheorems

  /** Mutex `m` apart, the two worlds have the same mutexes. */
  ghost predicate OthersSame(w: World, v: World, m: nat) {
    && v.mutexes.Keys == w.mutexes.Keys && v.base == w.base
    && (forall n | n in w.mutexes && n != m :: v.mutexes[n] == w.mutexes[n])
  }

  /** Thread `t` apart, no priority changes. */
  ghost predicate PrioritiesSame(w: World, v: World, t: nat) {
    v.prio.Keys == w.prio.Keys && forall u | u in w.prio && u != t :: v.prio[u] == w.prio[u]
  }

  /**
    rt_mutex_take succeeds exactly on a free mutex and on one the caller owns already; otherwise
    it gives up exactly if it may not wait.
   */
  lemma {:induction false} TakeAnswers(w: World, m: nat, t: nat, timeout: int)
    requires Owned(w) && Fair(w, TakeStep(m, t, timeout))
    ensures
      var r := Take(w, m, t, timeout).1;
      && (r == Ok <==> w.mutexes[m].owner == Nobody || w.mutexes[m].owner == Held(t))
      && (r == TimedOut <==> w.mutexes[m].owner != Nobody && w.mutexes[m].owner != Held(t) && timeout == 0)
      && (r == Blocked <==> w.mutexes[m].owner != Nobody && w.mutexes[m].owner != Held(t) && timeout != 0)
  {
    assert OwnershipOk(w.mutexes[m]);
    hide Enqueue, Refresh;
  }

  /** A take that succeeds makes the caller the owner, one take deeper, and changes nobody's priority. */
  lemma {:induction false} TakeGrants(w: World, m: nat, t: nat, timeout: int)
    requires Owned(w) && Fair(w, TakeStep(m, t, timeout)) && Take(w, m, t, timeout).1 == Ok
    ensures
      var v, x := Take(w, m, t, timeout).0, w.mutexes[m];
      && OthersSame(w, v, m) && v.prio == w.prio && v.clock == w.clock
      && v.mutexes[m].owner == Held(t) && v.mutexes[m].hold == x.hold + 1 && v.mutexes[m].value == 0
      && v.mutexes[m].waiters == x.waiters && v.mutexes[m].flag == x.flag
      && v.mutexes[m].orig == if x.owner == Held(t) then x.orig else w.prio[t]
  {
    assert OwnershipOk(w.mutexes[m]);
    hide Enqueue, Refresh;
  }

  lemma {:induction false} TakeGivesUp(w: World, m: nat, t: nat, timeout: int)
    requires Known(w, m, t) && Take(w, m, t, timeout).1 == TimedOut
    ensures Take(w, m, t, timeout).0 == w
  {
    hide Enqueue, Refresh;
  }

  /** A take that blocks leaves ownership alone, adds the caller to the waiting threads and lends the owner its priority. */
  lemma {:induction false} TakeBlocks(w: World, m: nat, t: nat, timeout: int)
    requires Owned(w) && Fair(w, TakeStep(m, t, timeout)) && Take(w, m, t, timeout).1 == Blocked
    ensures
      var v, x := Take(w, m, t, timeout).0, w.mutexes[m];
      && OthersSame(w, v, m) && x.owner.Held?
      && v.mutexes[m].owner == x.owner && v.mutexes[m].hold == x.hold && v.mutexes[m].value == x.value
      && v.mutexes[m].orig == x.orig && v.mutexes[m].flag == x.flag
      && Tids(v.mutexes[m].waiters) == Tids(x.waiters) + {t}
      && Waiter(t, w.prio[t], w.clock, timeout, ()) in v.mutexes[m].waiters
      && PrioritiesSame(w, v, x.owner.tid)
      && v.prio[x.owner.tid] == (if w.prio[t] < w.prio[x.owner.tid] then w.prio[t] else w.prio[x.owner.tid])
  {
    hide Enqueue, Refresh, Distinct, Tids;
    var v, x := Take(w, m, t, timeout).0, w.mutexes[m];
    assert OwnershipOk(x) && ThreadsOk(x, w.prio);
    hide Owned, Fair, OwnershipOk, ThreadsOk;
    JoinsQueue(x, v.prio, Waiter(t, w.prio[t], w.clock, timeout, ()));
  }

  /**
    Where it goes: at the end of a FIFO list; on a PRIO list behind all threads whose current
    priority is no worse and in front of one whose current priority is worse.
   */
  lemma {:induction false} TakeBlocksAt(w: World, m: nat, t: nat, timeout: int) returns (i: nat)
    requires Owned(w) && Fair(w, TakeStep(m, t, timeout)) && Take(w, m, t, timeout).1 == Blocked
    ensures
      var v, q := Take(w, m, t, timeout).0, w.mutexes[m].waiters;
      var r := v.mutexes[m].waiters;
      && i <= |q| && |r| == |q| + 1 && r[i].tid == t
      && (forall j | 0 <= j < i :: r[j].tid == q[j].tid) && (forall j | i < j < |r| :: r[j].tid == q[j - 1].tid)
      && (forall j | 0 <= j < |q| :: q[j].tid in v.prio)
      && (w.mutexes[m].flag == Fifo ==> i == |q|)
      && (w.mutexes[m].flag == Prio ==>
           (forall j | 0 <= j < i :: v.prio[q[j].tid] <= w.prio[t]) && (i < |q| ==> w.prio[t] < v.prio[q[i].tid]))
  {
    hide Enqueue, Refresh, Distinct, Tids;
    var v, x := Take(w, m, t, timeout).0, w.mutexes[m];
    assert OwnershipOk(x) && ThreadsOk(x, w.prio);
    hide Owned, Fair, OwnershipOk;
    var y := Waiter(t, w.prio[t], w.clock, timeout, ());
    RefreshIs(x.waiters, v.prio);
    i := EnqueueAt(x.flag, Refresh(x.waiters, v.prio), y);
  }

  lemma {:induction false} RefreshIs(q: seq<Thread>, prio: map<nat, nat>)
    requires forall y :: y in q ==> y.tid in prio
    ensures forall j | 0 <= j < |q| ::
              q[j].tid in prio && Refresh(q, prio)[j].tid == q[j].tid && Refresh(q, prio)[j].prio == prio[q[j].tid]
  {
    forall j | 0 <= j < |q| ensures q[j].tid in prio {
      assert q[j] in q;
    }
  }

  lemma {:induction false} EnqueueAt(flag: Flag, q: seq<Thread>, y: Thread) returns (i: nat)
    ensures
      var r := Enqueue(flag, q, y);
      && i <= |q| && |r| == |q| + 1 && r[i] == y
      && (forall j | 0 <= j < i :: r[j] == q[j]) && (forall j | i < j < |r| :: r[j] == q[j - 1])
      && (flag == Fifo ==> i == |q|)
      && (flag == Prio ==> (forall j | 0 <= j < i :: q[j].prio <= y.prio) && (i < |q| ==> y.prio < q[i].prio))
  {
    i := if flag == Fifo then |q| else Slot(q, y.prio);
  }

  lemma {:induction false} JoinsQueue(x: Mutex, prio: map<nat, nat>, y: Thread)
    ensures
      var q := Enqueue(x.flag, Refresh(x.waiters, prio), y);
      Tids(q) == Tids(x.waiters) + {y.tid} && y in q
  {
    hide Enqueue, Refresh, Distinct, Tids;
    RefreshThreads(x.waiters, prio);
    EnqueueMembers(x.flag, Refresh(x.waiters, prio), y);
  }

  /** Only the owner can release: for anyone else the call fails and changes nothing. */
  lemma {:induction false} ReleaseByOther(w: World, m: nat, t: nat)
    requires Known(w, m, t) && w.mutexes[m].owner != Held(t)
    ensures Release(w, m, t) == (w, Failed)
  {
  }

  /** A release of a nested take undoes that take. */
  lemma {:induction false} ReleaseUndoesTake(w: World, m: nat, t: nat, timeout: int)
    requires Owned(w) && Fair(w, TakeStep(m, t, timeout)) && w.mutexes[m].owner == Held(t)
    ensures Known(Take(w, m, t, timeout).0, m, t) && Release(Take(w, m, t, timeout).0, m, t) == (w, Ok)
  {
    var x := w.mutexes[m];
    assert OwnershipOk(x);
    var v := Take(w, m, t, timeout).0;
    assert Release(v, m, t).0.mutexes[m] == x;
    assert Release(v, m, t).0.mutexes == w.mutexes;
  }

  /** A take and a release of a free mutex leave it free, and every priority as it was. */
  lemma {:induction false} ReleaseUndoesFirstTake(w: World, m: nat, t: nat, timeout: int)
    requires Owned(w) && Fair(w, TakeStep(m, t, timeout)) && w.mutexes[m].owner == Nobody
    ensures Known(Take(w, m, t, timeout).0, m, t)
    ensures
      var (v, r) := Release(Take(w, m, t, timeout).0, m, t);
      && r == Ok && v.prio == w.prio && OthersSame(w, v, m)
      && v.mutexes[m].owner == Nobody && v.mutexes[m].value == 1 && v.mutexes[m].hold == 0 && v.mutexes[m].waiters == []
  {
    assert OwnershipOk(w.mutexes[m]);
  }

  /** The owner's release always succeeds; it gives the mutex up exactly at the last of its takes. */
  lemma {:induction false} ReleaseAnswers(w: World, m: nat, t: nat)
    requires Owned(w) && Known(w, m, t) && w.mutexes[m].owner == Held(t)
    ensures
      var (v, r) := Release(w, m, t);
      var x := w.mutexes[m];
      && r == Ok && OthersSame(w, v, m) && PrioritiesSame(w, v, t) && v.clock == w.clock && v.mutexes[m].flag == x.flag
      && (x.hold > 1 ==> v.prio == w.prio && v.mutexes[m] == x.(hold := x.hold - 1, depth := x.depth - 1))
      && (x.hold == 1 ==> v.prio[t] == x.orig && v.mutexes[m].owner != Held(t))
      && (x.hold == 1 && x.waiters == [] ==> v.mutexes[m].owner == Nobody && v.mutexes[m].value == 1)
  {
    var x := w.mutexes[m];
    assert OwnershipOk(x) && ThreadsOk(x, w.prio);
    if x.waiters != [] {
      assert x.waiters[0] in x.waiters;
    }
    hide Owned, Distinct;
  }

  /** The last release hands the mutex to the first waiting thread, which alone stops waiting. */
  lemma {:induction false} ReleaseHandsOver(w: World, m: nat, t: nat)
    requires Owned(w) && Known(w, m, t) && w.mutexes[m].owner == Held(t) && w.mutexes[m].hold == 1
    requires w.mutexes[m].waiters != []
    ensures
      var v, x := Release(w, m, t).0, w.mutexes[m];
      var h := x.waiters[0].tid;
      && v.mutexes[m].owner == Held(h) && v.mutexes[m].hold == 1 && v.mutexes[m].value == 0
      && h in v.prio && v.mutexes[m].orig == v.prio[h]
      && Tids(v.mutexes[m].waiters) == Tids(x.waiters) - {h}
      && (forall y | y in x.waiters && y.tid != h :: y in v.mutexes[m].waiters)
  {
    var x := w.mutexes[m];
    assert OwnershipOk(x) && ThreadsOk(x, w.prio);
    HeadLeaves(x.flag, x.waiters);
    hide Owned, Tids;
  }

  /** A timeout takes one thread off the list and changes nothing else. */
  lemma {:induction false} ExpireLeaves(w: World, m: nat, i: nat)
    requires Owned(w) && m in w.mutexes && i < |w.mutexes[m].waiters|
    ensures
      var v, x := Expire(w, m, i), w.mutexes[m];
      && OthersSame(w, v, m) && v.prio == w.prio && v.mutexes[m] == x.(waiters := v.mutexes[m].waiters)
      && (forall y :: y in v.mutexes[m].waiters <==> y in x.waiters && y.tid != x.waiters[i].tid)
  {
    var x := w.mutexes[m];
    assert ThreadsOk(x, w.prio);
    WithoutFacts(x.flag, x.waiters, i, 0);
    hide Owned, Without;
  }

  lemma {:induction false} PriorityIsSet(w: World, t: nat, p: nat)
    ensures
      var v := SetPriority(w, t, p);
      && t in v.prio && v.prio[t] == p && t in v.base && v.base[t] == p && v.mutexes == w.mutexes
      && (forall u | u in w.prio && u != t :: u in v.prio && v.prio[u] == w.prio[u])
  {
  }

  lemma {:induction false} OwnerStays(w: World, s: Step, m: nat, u: nat)
    requires Owned(w) && Fair(w, s) && m in w.mutexes && w.mutexes[m].owner == Held(u) && s != ReleaseStep(m, u)
    ensures m in Next(w, s).mutexes && Next(w, s).mutexes[m].owner == Held(u)
  {
    assert OwnershipOk(w.mutexes[m]);
    hide Owned, Enqueue, Refresh, Without;
  }

  /** In every run a thread loses a mutex only by its own release. */
  lemma {:induction false} OnlyTheOwnerReleases(flags: map<nat, Flag>, base: map<nat, nat>, states: seq<World>, steps: seq<Step>,
                                               i: nat, m: nat, u: nat)
    requires IsFairRun(states, steps) && states[0] == Start(flags, base) && i < |steps|
    requires m in states[i].mutexes && states[i].mutexes[m].owner == Held(u)
    ensures m in states[i + 1].mutexes
    ensures states[i + 1].mutexes[m].owner != Held(u) ==> steps[i] == ReleaseStep(m, u)
  {
    FairRunOwned(flags, base, states, steps, i);
    assert Fair(states[i], steps[i]) && states[i + 1] == Next(states[i], steps[i]);
    hide Owned, Next, Fair;
    if steps[i] != ReleaseStep(m, u) {
      OwnerStays(states[i], steps[i], m, u);
    } else {
      MutexesStay(states[i], steps[i], m);
    }
  }

  lemma {:induction false} MutexesStay(w: World, s: Step, m: nat)
    requires m in w.mutexes
    ensures m in Next(w, s).mutexes
  {
    hide Enqueue, Refresh, Without;
  }

  /** In every run a mutex keeps its owner for as long as that thread does not release it. */
  lemma {:induction false} OwnerKeepsMutex(flags: map<nat, Flag>, base: map<nat, nat>, states: seq<World>, steps: seq<Step>,
                                          i: nat, n: nat, m: nat, u: nat)
    requires IsFairRun(states, steps) && states[0] == Start(flags, base) && i <= n < |states|
    requires m in states[i].mutexes && states[i].mutexes[m].owner == Held(u)
    requires forall k | i <= k < n :: steps[k] != ReleaseStep(m, u)
    ensures m in states[n].mutexes && states[n].mutexes[m].owner == Held(u)
  {
    if i < n {
      hide IsFairRun;
      OwnerKeepsMutex(flags, base, states, steps, i, n - 1, m, u);
      OnlyTheOwnerReleases(flags, base, states, steps, n - 1, m, u);
    }
  }
}

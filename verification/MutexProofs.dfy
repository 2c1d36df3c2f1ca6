/** What every take, release and timeout keeps, and what priority inheritance guarantees. */
module MutexProofs {
  import opened WaitQueue
  import opened MutexSpec

  // ---------------------------------------------------------------------------------
  // One mutex
  // ---------------------------------------------------------------------------------

  /** A change to the priority of a thread that is not involved is no concern of the mutex. */
  lemma {:induction false} PrioFrame(x: Mutex, prio: map<nat, nat>, base: map<nat, nat>, clock: nat, t: nat, p: nat)
    requires MutexOk(x, prio, base, clock) && !Involved(x, t)
    ensures MutexOk(x, prio[t := p], base, clock)
  {
    forall y | y in x.waiters ensures y.tid != t {
      assert y.tid in Tids(x.waiters);
    }
  }

  lemma {:induction false} ClockFrame(x: Mutex, prio: map<nat, nat>, base: map<nat, nat>, clock: nat)
    requires MutexOk(x, prio, base, clock)
    ensures MutexOk(x, prio, base, clock + 1)
  {
  }

  lemma {:induction false} NestedOk(x: Mutex, prio: map<nat, nat>, base: map<nat, nat>, clock: nat, hold: nat)
    requires MutexOk(x, prio, base, clock) && x.owner.Held? && 0 < hold < HOLD_LIMIT
    ensures MutexOk(x.(hold := hold, depth := hold), prio, base, clock)
  {
  }

  lemma {:induction false} AcquireOk(x: Mutex, prio: map<nat, nat>, base: map<nat, nat>, clock: nat, t: nat)
    requires MutexOk(x, prio, base, clock) && x.value == 1 && t in prio && t in base && prio[t] == base[t]
    ensures MutexOk(x.(value := 0, owner := Held(t), orig := prio[t], hold := 1, depth := 1), prio, base, clock)
  {
    assert Tids(x.waiters) == {};
  }

  /** A new waiter: the owner is raised to its priority, and the queue stays in order. */
  lemma {:induction false} BlockOk(x: Mutex, prio: map<nat, nat>, base: map<nat, nat>, y: Thread, boosted: map<nat, nat>)
    requires MutexOk(x, prio, base, y.stamp) && x.owner.Held? && !Involved(x, y.tid)
    requires y.tid in prio && prio[y.tid] == y.prio
    requires boosted == if y.prio < prio[x.owner.tid] then prio[x.owner.tid := y.prio] else prio
    ensures MutexOk(x.(waiters := Enqueue(x.flag, x.waiters, y)), boosted, base, y.stamp + 1)
  {
    EnqueueInOrder(x.flag, x.waiters, y);
    EnqueueStamped(x.flag, x.waiters, y);
    EnqueueDistinct(x.flag, x.waiters, y);
    EnqueueMembers(x.flag, x.waiters, y);
    BlockPriorities(x, prio, base, y, boosted);
  }

  lemma {:induction false} BlockPriorities(x: Mutex, prio: map<nat, nat>, base: map<nat, nat>, y: Thread, boosted: map<nat, nat>)
    requires MutexOk(x, prio, base, y.stamp) && x.owner.Held? && !Involved(x, y.tid)
    requires y.tid in prio && prio[y.tid] == y.prio
    requires boosted == if y.prio < prio[x.owner.tid] then prio[x.owner.tid := y.prio] else prio
    ensures PrioritiesOk(x.(waiters := Enqueue(x.flag, x.waiters, y)), boosted, base)
  {
    hide Enqueue, QueueOk;
    EnqueueMembers(x.flag, x.waiters, y);
    forall z | z in x.waiters ensures z.tid != x.owner.tid {
      assert z.tid in Tids(x.waiters);
    }
  }

  /** The head of a wait list */
  lemma {:induction false} HeadFacts(x: Mutex, clock: nat)
    requires QueueOk(x.flag, clock, x.waiters) && x.waiters != []
    ensures QueueOk(x.flag, clock, x.waiters[1..])
    ensures Tids(x.waiters[1..]) == Tids(x.waiters) - {x.waiters[0].tid} && x.waiters[0].tid in Tids(x.waiters)
    ensures forall y :: y in x.waiters[1..] <==> y in x.waiters && y.tid != x.waiters[0].tid
  {
    assert Without(x.waiters, 0) == x.waiters[1..];
    WithoutFacts(x.flag, x.waiters, 0, clock);
  }

  /** Hand-off: the head of the list becomes the owner, at its own priority. */
  function HandedOff(x: Mutex, orig: nat): Mutex
    requires x.waiters != []
  {
    x.(owner := Held(x.waiters[0].tid), orig := orig, hold := 1, depth := 1, waiters := x.waiters[1..])
  }

  lemma {:induction false} HandOffOk(x: Mutex, prio: map<nat, nat>, base: map<nat, nat>, clock: nat, restored: map<nat, nat>)
    requires MutexOk(x, prio, base, clock) && x.owner.Held? && x.waiters != []
    requires restored == prio[x.owner.tid := x.orig]
    requires x.waiters[0].tid in base && prio[x.waiters[0].tid] == base[x.waiters[0].tid]
    ensures MutexOk(HandedOff(x, restored[x.waiters[0].tid]), restored, base, clock)
  {
    hide Distinct, InOrder, Stamped;
    HeadFacts(x, clock);
    var h := x.waiters[0];
    forall y | y in x.waiters ensures y.tid != x.owner.tid && (y.tid != h.tid && x.flag == Prio ==> h.prio <= y.prio) {
      assert y.tid in Tids(x.waiters);
      if y != h && x.flag == Prio {
        HeadFirst(x, clock, y);
      }
    }
  }

  lemma {:induction false} HeadFirst(x: Mutex, clock: nat, y: Thread)
    requires QueueOk(x.flag, clock, x.waiters) && y in x.waiters && y != x.waiters[0] && x.flag == Prio
    ensures x.waiters[0].prio <= y.prio
  {
    HeadIsFirst(x.flag, x.waiters, y);
  }

  lemma {:induction false} ExpireOk(x: Mutex, prio: map<nat, nat>, base: map<nat, nat>, clock: nat, i: nat)
    requires MutexOk(x, prio, base, clock) && i < |x.waiters|
    ensures MutexOk(x.(waiters := Without(x.waiters, i)), prio, base, clock)
  {
    WithoutFacts(x.flag, x.waiters, i, clock);
  }

  // ---------------------------------------------------------------------------------
  // All mutexes
  // ---------------------------------------------------------------------------------

  /** What a step must show about the mutex `m` it touches for the whole to stay well formed */
  lemma {:induction false} Assemble(w: World, m: nat, x: Mutex, w': World, newcomer: nat)
    requires Inv(w) && m in w.mutexes
    requires w'.mutexes == w.mutexes[m := x] && w'.prio.Keys == w.prio.Keys && w'.base == w.base
    requires MutexOk(x, w'.prio, w.base, w'.clock)
    requires forall n :: n in w.mutexes && n != m ==> MutexOk(w.mutexes[n], w'.prio, w.base, w'.clock)
    requires forall t :: Involved(x, t) ==> t == newcomer || Involved(w.mutexes[m], t)
    requires forall n :: n in w.mutexes && n != m ==> !Involved(w.mutexes[n], newcomer) || !Involved(x, newcomer)
    requires forall t :: t in w.base && !OwnsSomething(w', t) ==> w'.prio[t] == w.base[t]
    ensures Inv(w')
  {
    hide MutexOk, Involved;
  }

  /** Ownership of other mutexes is untouched. */
  lemma {:induction false} OwnsFrame(w: World, m: nat, x: Mutex, w': World, t: nat)
    requires m in w.mutexes && w'.mutexes == w.mutexes[m := x]
    ensures x.owner == Held(t) ==> OwnsSomething(w', t)
    ensures w.mutexes[m].owner != Held(t) ==> (OwnsSomething(w, t) ==> OwnsSomething(w', t))
    ensures x.owner == w.mutexes[m].owner ==> (OwnsSomething(w, t) <==> OwnsSomething(w', t))
  {
    if x.owner == Held(t) {
      assert w'.mutexes[m].owner == Held(t);
    }
    if n :| n in w.mutexes && w.mutexes[n].owner == Held(t) {
      assert n in w'.mutexes && (n != m ==> w'.mutexes[n].owner == Held(t));
      assert x.owner == w.mutexes[m].owner ==> w'.mutexes[n].owner == Held(t);
    }
    if n :| n in w'.mutexes && w'.mutexes[n].owner == Held(t) {
      assert x.owner == w.mutexes[m].owner ==> w.mutexes[n].owner == Held(t);
    }
  }

  lemma {:induction false} OthersOk(w: World, m: nat, t: nat, p: nat, n: nat)
    requires Inv(w) && m in w.mutexes && n in w.mutexes && n != m && Involved(w.mutexes[m], t)
    ensures MutexOk(w.mutexes[n], w.prio[t := p], w.base, w.clock)
    ensures MutexOk(w.mutexes[n], w.prio[t := p], w.base, w.clock + 1)
  {
    hide MutexOk, Involved;
    PrioFrame(w.mutexes[n], w.prio, w.base, w.clock, t, p);
    ClockFrame(w.mutexes[n], w.prio[t := p], w.base, w.clock);
  }

  lemma {:induction false} TakeKeeps(w: World, m: nat, t: nat, timeout: int)
    requires Inv(w) && Legal(w, TakeStep(m, t, timeout))
    ensures Inv(Take(w, m, t, timeout).0)
  {
    var x, w' := w.mutexes[m], Take(w, m, t, timeout).0;
    if x.owner == Held(t) {
      NestedOk(x, w.prio, w.base, w.clock, x.hold + 1);
      SameOwnerKeeps(w, m, w'.mutexes[m]);
    } else if x.value > 0 {
      TakeFreeKeeps(w, m, t, timeout);
    } else if timeout != 0 {
      TakeBlockedKeeps(w, m, t, timeout);
    }
  }

  lemma {:induction false} SameOwnerKeeps(w: World, m: nat, x: Mutex)
    requires Inv(w) && m in w.mutexes && x.owner == w.mutexes[m].owner && Tids(x.waiters) <= Tids(w.mutexes[m].waiters)
    requires MutexOk(x, w.prio, w.base, w.clock)
    ensures Inv(w.(mutexes := w.mutexes[m := x]))
  {
    hide MutexOk, Tids;
    var w' := w.(mutexes := w.mutexes[m := x]);
    forall t ensures OwnsSomething(w, t) <==> OwnsSomething(w', t) {
      OwnsFrame(w, m, x, w', t);
    }
    var newcomer := if x.owner.Held? then x.owner.tid else 0;
    if !Involved(x, newcomer) || Involved(w.mutexes[m], newcomer) {
      Assemble(w, m, x, w', newcomer);
    }
  }

  /** A thread that takes a mutex owns no other and so runs at its own priority. */
  lemma {:induction false} TakerIdle(w: World, m: nat, t: nat, timeout: int)
    requires Inv(w) && Legal(w, TakeStep(m, t, timeout)) && w.mutexes[m].owner != Held(t)
    ensures Known(w, m, t) && MutexOk(w.mutexes[m], w.prio, w.base, w.clock)
    ensures t in w.base && w.prio[t] == w.base[t]
    ensures forall n :: n in w.mutexes && n != m ==> !Involved(w.mutexes[n], t)
  {
    forall n | n in w.mutexes ensures w.mutexes[n].owner != Held(t) {
      assert w.mutexes[n].owner == Held(t) ==> Involved(w.mutexes[n], t);
    }
    hide MutexOk;
  }

  lemma {:induction false} TakeFreeKeeps(w: World, m: nat, t: nat, timeout: int)
    requires Inv(w) && Legal(w, TakeStep(m, t, timeout)) && w.mutexes[m].owner != Held(t) && w.mutexes[m].value > 0
    ensures Inv(Take(w, m, t, timeout).0)
  {
    hide MutexOk, OwnsSomething, OneMutexEach;
    TakerIdle(w, m, t, timeout);
    var x, w' := w.mutexes[m], Take(w, m, t, timeout).0;
    var x' := w'.mutexes[m];
    OneUnit(x, w.prio, w.base, w.clock);
    AcquireOk(x, w.prio, w.base, w.clock, t);
    forall u | u in w.base && !OwnsSomething(w', u) ensures w'.prio[u] == w.base[u] {
      OwnsFrame(w, m, x', w', u);
    }
    Assemble(w, m, x', w', t);
  }

  lemma {:induction false} OneUnit(x: Mutex, prio: map<nat, nat>, base: map<nat, nat>, clock: nat)
    requires MutexOk(x, prio, base, clock) && x.value > 0
    ensures x.value == 1 && x.hold == 0 && x.depth == 0 && x.owner == Nobody && x.waiters == []
  {
  }

  lemma {:induction false} TakeBlockedKeeps(w: World, m: nat, t: nat, timeout: int)
    requires Inv(w) && Legal(w, TakeStep(m, t, timeout)) && w.mutexes[m].owner != Held(t)
    requires w.mutexes[m].value == 0 && timeout != 0
    ensures Inv(Take(w, m, t, timeout).0)
  {
    hide QueueOk, PrioritiesOk, Enqueue, Tids, Refresh;
    var x, w' := w.mutexes[m], Take(w, m, t, timeout).0;
    assert MutexOk(x, w.prio, w.base, w.clock);
    var y := Waiter(t, w.prio[t], w.clock, timeout, ());
    assert x.owner.Held? && Involved(x, x.owner.tid) && !Involved(x, t);
    WaitersNow(w, m);
    RaiseOwner(x, w.prio, w.prio[t]);
    BlockOk(x, w.prio, w.base, y, w'.prio);
    EnqueueMembers(x.flag, x.waiters, y);
    forall n | n in w.mutexes && n != m ensures MutexOk(w.mutexes[n], w'.prio, w.base, w'.clock) {
      OthersOk(w, m, x.owner.tid, w.prio[t], n);
      ClockFrame(w.mutexes[n], w.prio, w.base, w.clock);
    }
    forall u | u in w.base && !OwnsSomething(w', u) ensures w'.prio[u] == w.base[u] {
      OwnsFrame(w, m, w'.mutexes[m], w', u);
    }
    Assemble(w, m, w'.mutexes[m], w', t);
  }

  lemma {:induction false} ReleaseKeeps(w: World, m: nat, t: nat)
    requires Inv(w) && Legal(w, ReleaseStep(m, t))
    ensures Inv(Release(w, m, t).0)
  {
    var x := w.mutexes[m];
    assert MutexOk(x, w.prio, w.base, w.clock);
    if x.owner == Held(t) {
      assert x.hold >= 1;
      hide Inv, MutexOk, Release;
      if x.hold > 1 {
        NestedReleaseKeeps(w, m, t);
      } else {
        LastReleaseKeeps(w, m, t);
      }
    }
  }

  lemma {:induction false} NestedReleaseKeeps(w: World, m: nat, t: nat)
    requires Inv(w) && Legal(w, ReleaseStep(m, t)) && w.mutexes[m].owner == Held(t) && w.mutexes[m].hold > 1
    ensures Inv(Release(w, m, t).0)
  {
    var x, w' := w.mutexes[m], Release(w, m, t).0;
    assert MutexOk(x, w.prio, w.base, w.clock);
    assert x.depth == x.hold < HOLD_LIMIT;
    hide Inv, MutexOk;
    NestedOk(x, w.prio, w.base, w.clock, x.hold - 1);
    SameOwnerKeeps(w, m, w'.mutexes[m]);
  }

  lemma {:induction false} LastReleaseKeeps(w: World, m: nat, t: nat)
    requires Inv(w) && Legal(w, ReleaseStep(m, t)) && w.mutexes[m].owner == Held(t) && w.mutexes[m].hold == 1
    ensures Inv(Release(w, m, t).0)
  {
    hide QueueOk, Tids;
    var x, w' := w.mutexes[m], Release(w, m, t).0;
    var x' := w'.mutexes[m];
    assert MutexOk(x, w.prio, w.base, w.clock) && Involved(x, t);
    if x.waiters == [] {
      PrioFrameOwner(x, w.prio, w.base, w.clock, t);
    } else {
      HeadIdle(w, m);
      HandOffOk(x, w.prio, w.base, w.clock, w'.prio);
      HeadFacts(x, w.clock);
    }
    assert MutexOk(x', w'.prio, w.base, w'.clock);
    forall n | n in w.mutexes && n != m ensures MutexOk(w.mutexes[n], w'.prio, w.base, w'.clock) {
      OthersOk(w, m, t, x.orig, n);
    }
    forall u | u in w.base && !OwnsSomething(w', u) ensures w'.prio[u] == w.base[u] {
      OwnsFrame(w, m, x', w', u);
    }
    Assemble(w, m, x', w', t);
  }

  lemma {:induction false} PrioFrameOwner(x: Mutex, prio: map<nat, nat>, base: map<nat, nat>, clock: nat, t: nat)
    requires MutexOk(x, prio, base, clock) && x.owner == Held(t) && x.waiters == []
    ensures MutexOk(x.(value := 1, owner := Nobody, orig := NO_PRIORITY, hold := 0, depth := 0), prio[t := x.orig], base, clock)
  {
  }

  /** A waiting thread owns nothing, so it waits at its own priority. */
  lemma {:induction false} HeadIdle(w: World, m: nat)
    requires Inv(w) && m in w.mutexes && w.mutexes[m].waiters != []
    ensures
      var h := w.mutexes[m].waiters[0].tid;
      h in w.base && h in w.prio && w.prio[h] == w.base[h]
  {
    var x := w.mutexes[m];
    var y := x.waiters[0];
    assert y in x.waiters && y.tid in Tids(x.waiters);
    assert MutexOk(x, w.prio, w.base, w.clock) && Involved(x, y.tid);
    assert !OwnsSomething(w, y.tid) by {
      if n :| n in w.mutexes && w.mutexes[n].owner == Held(y.tid) {
        assert Involved(w.mutexes[n], y.tid);
      }
    }
  }

  lemma {:induction false} ExpireKeeps(w: World, m: nat, i: nat)
    requires Inv(w) && m in w.mutexes && i < |w.mutexes[m].waiters|
    ensures Inv(Expire(w, m, i))
  {
    var x := w.mutexes[m];
    assert MutexOk(x, w.prio, w.base, w.clock);
    ExpireOk(x, w.prio, w.base, w.clock, i);
    WithoutFacts(x.flag, x.waiters, i, w.clock);
    SameOwnerKeeps(w, m, x.(waiters := Without(x.waiters, i)));
  }

  /** Every legal step keeps the invariant. */
  lemma {:induction false} NextKeeps(w: World, s: Step)
    requires Inv(w) && Legal(w, s)
    ensures Inv(Next(w, s))
  {
    hide Inv, Take, Release, Expire;
    match s
    case TakeStep(m, t, timeout) => TakeKeeps(w, m, t, timeout);
    case ReleaseStep(m, t) => ReleaseKeeps(w, m, t);
    case TimerStep(m, i) => ExpireKeeps(w, m, i);
    case PriorityStep(t, p) => PriorityKeeps(w, t, p);
  }

  lemma {:induction false} WaitersNow(w: World, m: nat)
    requires Inv(w) && m in w.mutexes
    ensures forall z | z in w.mutexes[m].waiters :: z.tid in w.prio && w.prio[z.tid] == z.prio
  {
    assert MutexOk(w.mutexes[m], w.prio, w.base, w.clock);
  }

  /** Recorded priorities that are the current ones stay. */
  lemma {:induction false} RefreshSame(q: seq<Thread>, prio: map<nat, nat>)
    requires forall z | z in q :: z.tid in prio && prio[z.tid] == z.prio
    ensures Refresh(q, prio) == q
  {
    forall i | 0 <= i < |q| ensures Refresh(q, prio)[i] == q[i] {
      assert q[i] in q;
    }
  }

  /** Raising the owner changes no waiter's priority. */
  lemma {:induction false} RaiseOwner(x: Mutex, prio: map<nat, nat>, p: nat)
    requires OwnershipOk(x) && x.owner.Held?
    requires forall z | z in x.waiters :: z.tid in prio && prio[z.tid] == z.prio
    ensures Refresh(x.waiters, prio) == x.waiters && Refresh(x.waiters, prio[x.owner.tid := p]) == x.waiters
  {
    forall z | z in x.waiters ensures z.tid != x.owner.tid {
      assert z.tid in Tids(x.waiters);
    }
    RefreshSame(x.waiters, prio);
    RefreshSame(x.waiters, prio[x.owner.tid := p]);
  }

  /** An application changes the priority of a thread that is involved with no mutex. */
  lemma {:induction false} PriorityKeeps(w: World, t: nat, p: nat)
    requires Inv(w) && t in w.prio && forall n :: n in w.mutexes ==> !Involved(w.mutexes[n], t)
    ensures Inv(SetPriority(w, t, p))
  {
    var v := SetPriority(w, t, p);
    forall n | n in w.mutexes ensures MutexOk(w.mutexes[n], v.prio, v.base, v.clock) {
      PrioFrame(w.mutexes[n], w.prio, w.base, w.clock, t, p);
      BaseFrame(w.mutexes[n], v.prio, w.base, w.clock, t, p);
    }
    hide MutexOk, Involved;
    forall u | u in v.base && !OwnsSomething(v, u) ensures v.prio[u] == v.base[u] {
      assert OwnsSomething(w, u) ==> OwnsSomething(v, u);
    }
  }

  lemma {:induction false} BaseFrame(x: Mutex, prio: map<nat, nat>, base: map<nat, nat>, clock: nat, t: nat, p: nat)
    requires MutexOk(x, prio, base, clock) && !Involved(x, t)
    ensures MutexOk(x, prio, base[t := p], clock)
  {
  }
}

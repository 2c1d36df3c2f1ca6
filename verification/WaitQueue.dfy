/**
  The list of threads suspended on an IPC object.

  A waiter records the thread, the priority it had when it suspended (a smaller number is a
  higher priority), an arrival stamp, the waiting time it asked for, and what it waits for.
 */
module WaitQueue {

  datatype Flag = Fifo | Prio

  datatype Waiter<+T> = Waiter(tid: nat, prio: nat, stamp: nat, timeout: int, info: T)

  /** `a` is to be served before `b`. */
  predicate Before<T>(flag: Flag, a: Waiter<T>, b: Waiter<T>) {
    match flag
    case Fifo => a.stamp < b.stamp
    case Prio => a.prio < b.prio || (a.prio == b.prio && a.stamp < b.stamp)
  }

  /** The list is in serving order: by arrival, or by priority and then by arrival. */
  ghost predicate InOrder<T>(flag: Flag, q: seq<Waiter<T>>) {
    forall i, j | 0 <= i < j < |q| :: Before(flag, q[i], q[j])
  }

  /** No stamp in the list is at or above `now`. */
  ghost predicate Stamped<T>(q: seq<Waiter<T>>, now: nat) {
    forall w :: w in q ==> w.stamp < now
  }

  ghost function Tids<T>(q: seq<Waiter<T>>): set<nat> {
    set w | w in q :: w.tid
  }

  ghost predicate Distinct<T>(q: seq<Waiter<T>>) {
    forall i, j | 0 <= i < j < |q| :: q[i].tid != q[j].tid
  }

  /** Where a new waiter goes: behind every waiter that it does not beat */
  function Slot<T>(q: seq<Waiter<T>>, prio: nat, i: nat := 0): (r: nat)
    requires i <= |q|
    ensures i <= r <= |q|
    ensures forall k | i <= k < r :: q[k].prio <= prio
    ensures r < |q| ==> prio < q[r].prio
    decreases |q| - i
  {
    if i == |q| || prio < q[i].prio then i else Slot(q, prio, i + 1)
  }

  function Enqueue<T>(flag: Flag, q: seq<Waiter<T>>, w: Waiter<T>): seq<Waiter<T>> {
    var i := if flag == Fifo then |q| else Slot(q, w.prio);
    q[..i] + [w] + q[i..]
  }

  /** rt_ipc_list_suspend: the walk over the list */
  method Suspend<T>(flag: Flag, q: seq<Waiter<T>>, w: Waiter<T>) returns (r: seq<Waiter<T>>)
    ensures r == Enqueue(flag, q, w)
  {
    match flag
    case Fifo =>
      assert q[..|q|] == q && q[|q|..] == [];
      r := q + [w];
    case Prio =>
      var n := 0;
      while n != |q|
        invariant n <= |q| && Slot(q, w.prio) == Slot(q, w.prio, n)
      {
        if w.prio < q[n].prio {
          break;
        }
        n := n + 1;
      }
      r := q[..n] + [w] + q[n..];
  }

  lemma {:induction false} InsertInOrder<T>(flag: Flag, q: seq<Waiter<T>>, i: nat, w: Waiter<T>)
    requires InOrder(flag, q) && i <= |q|
    requires forall k | 0 <= k < i :: Before(flag, q[k], w)
    requires forall k | i <= k < |q| :: Before(flag, w, q[k])
    ensures InOrder(flag, q[..i] + [w] + q[i..])
  {
    hide Before;
    var r := q[..i] + [w] + q[i..];
    forall j, k | 0 <= j < k < |r| ensures Before(flag, r[j], r[k]) {
      if k < i {
        assert r[j] == q[j] && r[k] == q[k];
      } else if k == i {
        assert r[j] == q[j] && r[k] == w;
      } else {
        assert r[k] == q[k - 1];
        assert r[j] == if j < i then q[j] else if j == i then w else q[j - 1];
      }
    }
  }

  /** A newcomer leaves the list in serving order. */
  lemma {:induction false} EnqueueInOrder<T>(flag: Flag, q: seq<Waiter<T>>, w: Waiter<T>)
    requires InOrder(flag, q) && Stamped(q, w.stamp)
    ensures InOrder(flag, Enqueue(flag, q, w))
  {
    var i := if flag == Fifo then |q| else Slot(q, w.prio);
    forall k | 0 <= k < i ensures Before(flag, q[k], w) {
      assert q[k] in q;
    }
    forall k | i <= k < |q| ensures Before(flag, w, q[k]) {
      assert k == i || Before(flag, q[i], q[k]);
    }
    InsertInOrder(flag, q, i, w);
  }

  lemma {:induction false} EnqueueStamped<T>(flag: Flag, q: seq<Waiter<T>>, w: Waiter<T>)
    requires Stamped(q, w.stamp)
    ensures Stamped(Enqueue(flag, q, w), w.stamp + 1)
  {
    EnqueueMembers(flag, q, w);
  }

  lemma {:induction false} EnqueueMembers<T>(flag: Flag, q: seq<Waiter<T>>, w: Waiter<T>)
    ensures |Enqueue(flag, q, w)| == |q| + 1
    ensures forall x :: x in Enqueue(flag, q, w) <==> x == w || x in q
    ensures Tids(Enqueue(flag, q, w)) == Tids(q) + {w.tid}
  {
    var i := if flag == Fifo then |q| else Slot(q, w.prio);
    var r := Enqueue(flag, q, w);
    assert q == q[..i] + q[i..];
    assert forall x :: x in r <==> x == w || x in q;
    forall t ensures t in Tids(r) <==> t in Tids(q) + {w.tid} {
      if t in Tids(q) {
        var x :| x in q && x.tid == t;
        assert x in r;
      }
      if t == w.tid {
        assert w in r;
      }
    }
  }

  lemma {:induction false} EnqueueDistinct<T>(flag: Flag, q: seq<Waiter<T>>, w: Waiter<T>)
    requires Distinct(q) && w.tid !in Tids(q)
    ensures Distinct(Enqueue(flag, q, w))
  {
    hide Tids;
    var i := if flag == Fifo then |q| else Slot(q, w.prio);
    var r := Enqueue(flag, q, w);
    forall k | 0 <= k < |q| ensures q[k].tid != w.tid {
      TidIn(q, k);
    }
    forall j, k | 0 <= j < k < |r| ensures r[j].tid != r[k].tid {
      assert r[j] == if j < i then q[j] else if j == i then w else q[j - 1];
      assert r[k] == if k < i then q[k] else if k == i then w else q[k - 1];
    }
  }

  lemma {:induction false} TidIn<T>(q: seq<Waiter<T>>, k: nat)
    requires k < |q|
    ensures q[k].tid in Tids(q)
  {
    assert q[k] in q;
  }

  /** The list without its element `i` */
  function Without<T>(q: seq<Waiter<T>>, i: nat): seq<Waiter<T>>
    requires i < |q|
  {
    q[..i] + q[i + 1..]
  }

  lemma {:induction false} WithoutFacts<T>(flag: Flag, q: seq<Waiter<T>>, i: nat, now: nat)
    requires i < |q| && Distinct(q)
    ensures Distinct(Without(q, i)) && Tids(Without(q, i)) == Tids(q) - {q[i].tid}
    ensures q[i].tid in Tids(q)
    ensures InOrder(flag, q) ==> InOrder(flag, Without(q, i))
    ensures Stamped(q, now) ==> Stamped(Without(q, i), now)
    ensures forall x :: x in Without(q, i) <==> x in q && x.tid != q[i].tid
  {
    var r := Without(q, i);
    assert forall k | 0 <= k < i :: r[k] == q[k];
    assert forall k | i <= k < |r| :: r[k] == q[k + 1];
    forall x ensures x in r <==> x in q && x.tid != q[i].tid {
      if x in q && x.tid != q[i].tid {
        var k :| 0 <= k < |q| && q[k] == x;
        assert k < i ==> r[k] == x;
        assert k > i ==> r[k - 1] == x;
      }
    }
    assert q[i] in q;
    forall t ensures t in Tids(r) <==> t in Tids(q) - {q[i].tid} {
      if t in Tids(q) - {q[i].tid} {
        var x :| x in q && x.tid == t;
        assert x in r;
      }
    }
  }

  /** The head of a list in order is served before everyone else. */
  lemma {:induction false} HeadIsFirst<T>(flag: Flag, q: seq<Waiter<T>>, w: Waiter<T>)
    requires InOrder(flag, q) && w in q && w != q[0]
    ensures Before(flag, q[0], w)
  {
    var k :| 0 <= k < |q| && q[k] == w;
  }

  // ---------------------------------------------------------------------------------
  // The whole list
  // ---------------------------------------------------------------------------------

  /** How a call ends, or that it sleeps */
  datatype Outcome = Ok | Full | TimedOut | Failed | Blocked

  /** Each thread once, in serving order, with stamps given out before `clock` */
  ghost predicate QueueOk<T>(flag: Flag, clock: nat, q: seq<Waiter<T>>) {
    Distinct(q) && InOrder(flag, q) && Stamped(q, clock)
  }

  lemma {:induction false} EmptyQueue<T>(flag: Flag, clock: nat)
    ensures QueueOk<T>(flag, clock, []) && Tids<T>([]) == {}
  {
  }

  /** rt_ipc_list_resume: the head leaves. */
  lemma {:induction false} DequeueFacts<T>(flag: Flag, clock: nat, q: seq<Waiter<T>>)
    requires QueueOk(flag, clock, q) && q != []
    ensures QueueOk(flag, clock, q[1..])
    ensures Tids(q[1..]) == Tids(q) - {q[0].tid} && q[0].tid in Tids(q)
  {
    assert Without(q, 0) == q[1..];
    WithoutFacts(flag, q, 0, clock);
  }

  /** rt_ipc_list_suspend: a thread joins. */
  lemma {:induction false} EnqueueFacts<T>(flag: Flag, clock: nat, q: seq<Waiter<T>>, w: Waiter<T>)
    requires QueueOk(flag, clock, q) && w.tid !in Tids(q) && w.stamp == clock
    ensures QueueOk(flag, clock + 1, Enqueue(flag, q, w))
    ensures Tids(Enqueue(flag, q, w)) == Tids(q) + {w.tid} && Enqueue(flag, q, w) != []
  {
    EnqueueInOrder(flag, q, w);
    EnqueueStamped(flag, q, w);
    EnqueueDistinct(flag, q, w);
    EnqueueMembers(flag, q, w);
  }

  /** A timeout: any thread leaves. */
  lemma {:induction false} WithoutQueue<T>(flag: Flag, clock: nat, q: seq<Waiter<T>>, i: nat)
    requires QueueOk(flag, clock, q) && i < |q|
    ensures QueueOk(flag, clock, Without(q, i))
    ensures Tids(Without(q, i)) == Tids(q) - {q[i].tid} && q[i].tid in Tids(q)
  {
    WithoutFacts(flag, q, i, clock);
  }

  lemma {:induction false} ClockOk<T>(flag: Flag, clock: nat, q: seq<Waiter<T>>)
    requires QueueOk(flag, clock, q)
    ensures QueueOk(flag, clock + 1, q)
  {
  }

  /** rt_ipc_list_resume_all: every thread of the list wakes with an error. */
  function FailAll<T>(failed: map<nat, Outcome>, q: seq<Waiter<T>>): map<nat, Outcome>
    decreases |q|
  {
    if q == [] then failed else FailAll(failed[q[0].tid := Failed], q[1..])
  }

  lemma {:induction false} FailAllKeys<T>(failed: map<nat, Outcome>, q: seq<Waiter<T>>)
    ensures FailAll(failed, q).Keys == failed.Keys + Tids(q)
    decreases |q|
  {
    if q != [] {
      FailAllKeys(failed[q[0].tid := Failed], q[1..]);
      assert Tids(q) == {q[0].tid} + Tids(q[1..]) by {
        assert q == [q[0]] + q[1..];
      }
    }
  }

  /** Every thread of the list has failed, and the others ended as they had. */
  lemma {:induction false} FailAllValues<T>(failed: map<nat, Outcome>, q: seq<Waiter<T>>, t: nat)
    ensures
      var v := FailAll(failed, q);
      && (t in Tids(q) ==> t in v && v[t] == Failed)
      && (t !in Tids(q) ==> (t in v <==> t in failed) && (t in failed ==> v[t] == failed[t]))
    decreases |q|
  {
    if q != [] {
      FailAllValues(failed[q[0].tid := Failed], q[1..], t);
      assert Tids(q) == {q[0].tid} + Tids(q[1..]) by {
        assert q == [q[0]] + q[1..];
      }
    }
  }

  /** The waiting time that is left after a wake-up */
  function Remaining(timeout: int, elapsed: nat): int {
    if timeout > 0 then (if timeout < elapsed then 0 else timeout - elapsed) else timeout
  }

  /** A call that waits for ever never gives up; any other has used its time up exactly when it has slept that long. */
  lemma {:induction false} RemainingEnds(timeout: int, elapsed: nat)
    ensures Remaining(timeout, elapsed) == 0 <==> timeout == 0 || 0 < timeout <= elapsed
    ensures timeout < 0 ==> Remaining(timeout, elapsed) == timeout
    ensures elapsed < timeout ==> Remaining(timeout, elapsed) + elapsed == timeout
  {
  }

  /** Sleeping twice uses up the time of both. */
  lemma {:induction false} RemainingAdds(timeout: int, a: nat, b: nat)
    ensures Remaining(Remaining(timeout, a), b) == Remaining(timeout, a + b)
  {
  }
}

/**
  Doubly linked rings that live inside the objects they link, as in rtservice.h.

  A node is a number; `next` and `prev` give the two links of every node. A list is a ring
  through its header node.
 */
module Rings {

  datatype Links = Links(next: seq<nat>, prev: seq<nat>)

  ghost predicate NoDup(r: seq<nat>) {
    forall i, j | 0 <= i < j < |r| :: r[i] != r[j]
  }

  /** Position of `n`, or the length */
  function Position(r: seq<nat>, n: nat): (i: nat)
    ensures i <= |r|
    ensures i < |r| ==> r[i] == n
    ensures i == |r| ==> n !in r
  {
    if r == [] || r[0] == n then 0 else 1 + Position(r[1..], n)
  }

  function Unlink(r: seq<nat>, n: nat): seq<nat> {
    var i := Position(r, n);
    if i < |r| then RemoveAt(r, i) else r
  }

  function Insert(r: seq<nat>, i: nat, n: nat): seq<nat>
    requires i <= |r|
  {
    r[..i] + [n] + r[i..]
  }

  function RemoveAt(r: seq<nat>, i: nat): seq<nat>
    requires i < |r|
  {
    r[..i] + r[i + 1..]
  }

  lemma {:induction false} UnlinkCount(r: seq<nat>, n: nat)
    requires n in r
    ensures multiset(Unlink(r, n)) == multiset(r) - multiset{n}
  {
    var i := Position(r, n);
    assert r == r[..i] + [r[i]] + r[i + 1..];
  }

  predicate Joined(l: Links, a: nat, b: nat) {
    a < |l.next| && b < |l.prev| && l.next[a] == b && l.prev[b] == a
  }

  /** Node `k` of the ring is linked both ways with the one that follows it. */
  predicate JoinedAt(l: Links, r: seq<nat>, k: nat)
    requires k < |r|
  {
    Joined(l, r[k], if k + 1 < |r| then r[k + 1] else r[0])
  }

  /** The links of the nodes in `r` lead around `r`, forwards and backwards. */
  ghost predicate Ring(l: Links, r: seq<nat>) {
    && r != [] && NoDup(r) && |l.next| == |l.prev|
    && (forall k | 0 <= k < |r| :: JoinedAt(l, r, k))
  }

  // ---------------------------------------------------------------------------------
  // Link updates
  // ---------------------------------------------------------------------------------

  /** rt_list_insert_after: `n` behind `a` */
  function InsertAfter(l: Links, a: nat, n: nat): Links
    requires |l.next| == |l.prev| && a < |l.next| && n < |l.next| && l.next[a] < |l.next|
  {
    Links(l.next[n := l.next[a]][a := n], l.prev[l.next[a] := n][n := a])
  }

  /** rt_list_insert_before: `n` in front of `a` */
  function InsertBefore(l: Links, a: nat, n: nat): Links
    requires |l.next| == |l.prev| && a < |l.next| && n < |l.next| && l.prev[a] < |l.next|
  {
    Links(l.next[l.prev[a] := n][n := a], l.prev[n := l.prev[a]][a := n])
  }

  /** The neighbours of `n` are linked with each other. */
  function Bypass(l: Links, n: nat): Links
    requires |l.next| == |l.prev| && n < |l.next| && l.next[n] < |l.next| && l.prev[n] < |l.next|
  {
    Links(l.next[l.prev[n] := l.next[n]], l.prev[l.next[n] := l.prev[n]])
  }

  /** rt_list_remove: `n` is bypassed and then linked to itself. */
  function Isolate(l: Links, n: nat): Links
    requires |l.next| == |l.prev| && n < |l.next| && l.next[n] < |l.next| && l.prev[n] < |l.next|
  {
    var m := Bypass(l, n);
    Links(m.next[n := n], m.prev[n := n])
  }

  // ---------------------------------------------------------------------------------
  // What they do to rings
  // ---------------------------------------------------------------------------------

  lemma {:induction false} RingNode(l: Links, r: seq<nat>, i: nat)
    requires Ring(l, r) && i < |r|
    ensures r[i] < |l.next|
    ensures l.next[r[i]] == if i + 1 < |r| then r[i + 1] else r[0]
    ensures l.prev[r[i]] == if i > 0 then r[i - 1] else r[|r| - 1]
    ensures l.next[r[i]] < |l.next| && l.prev[r[i]] < |l.next|
  {
    assert JoinedAt(l, r, i);
    assert JoinedAt(l, r, if i > 0 then i - 1 else |r| - 1);
  }

  /** Insertion behind any node of a ring puts the new node there and nowhere else. */
  lemma {:induction false} InsertAfterRing(l: Links, r: seq<nat>, i: nat, n: nat)
    requires Ring(l, r) && i < |r| && n < |l.next| && n !in r
    ensures r[i] < |l.next| && l.next[r[i]] < |l.next|
    ensures Ring(InsertAfter(l, r[i], n), Insert(r, i + 1, n))
  {
    RingNode(l, r, i);
    var m, q := InsertAfter(l, r[i], n), Insert(r, i + 1, n);
    assert forall k | 0 <= k < |q| :: q[k] == if k <= i then r[k] else if k == i + 1 then n else r[k - 1];
    forall k | 0 <= k < |q| ensures JoinedAt(m, q, k) {
      if k < i {
        assert JoinedAt(l, r, k);
      } else if k > i + 1 {
        assert JoinedAt(l, r, k - 1);
      }
    }
  }

  /** Insertion in front of a node is insertion behind the node before it. */
  lemma {:induction false} InsertBeforeIsAfter(l: Links, r: seq<nat>, i: nat, n: nat)
    requires Ring(l, r) && i < |r| && n < |l.next| && n !in r
    ensures r[i] < |l.next| && l.prev[r[i]] < |l.next| && l.next[l.prev[r[i]]] == r[i]
    ensures InsertBefore(l, r[i], n) == InsertAfter(l, l.prev[r[i]], n)
  {
    RingNode(l, r, i);
    var j := if i > 0 then i - 1 else |r| - 1;
    RingNode(l, r, j);
    assert l.prev[r[i]] == r[j] && n != r[j] && n != r[i];
  }

  /** The ring after an insertion in front of node `i` */
  lemma {:induction false} InsertBeforeRing(l: Links, r: seq<nat>, i: nat, n: nat)
    requires Ring(l, r) && i < |r| && n < |l.next| && n !in r
    ensures r[i] < |l.next| && l.prev[r[i]] < |l.next|
    ensures Ring(InsertBefore(l, r[i], n), if i == 0 then r + [n] else Insert(r, i, n))
  {
    InsertBeforeIsAfter(l, r, i, n);
    RingNode(l, r, i);
    hide Ring;
    if i == 0 {
      InsertAfterRing(l, r, |r| - 1, n);
      assert Insert(r, |r|, n) == r + [n];
    } else {
      InsertAfterRing(l, r, i - 1, n);
    }
  }

  /** Taking a node out closes the ring behind it. */
  lemma {:induction false} BypassRing(l: Links, r: seq<nat>, i: nat)
    requires Ring(l, r) && i < |r| && |r| > 1
    ensures r[i] < |l.next| && l.next[r[i]] < |l.next| && l.prev[r[i]] < |l.next|
    ensures Ring(Bypass(l, r[i]), RemoveAt(r, i))
  {
    RingNode(l, r, i);
    var m, q := Bypass(l, r[i]), RemoveAt(r, i);
    assert forall k | 0 <= k < |q| :: q[k] == if k < i then r[k] else r[k + 1];
    forall k | 0 <= k < |q| ensures JoinedAt(m, q, k) {
      assert JoinedAt(l, r, k) && JoinedAt(l, r, k + 1);
    }
  }

  lemma {:induction false} IsolateRing(l: Links, r: seq<nat>, i: nat)
    requires Ring(l, r) && i < |r|
    ensures r[i] < |l.next| && l.next[r[i]] < |l.next| && l.prev[r[i]] < |l.next|
    ensures Ring(Isolate(l, r[i]), [r[i]]) && (|r| > 1 ==> Ring(Isolate(l, r[i]), RemoveAt(r, i)))
  {
    RingNode(l, r, i);
    var m := Isolate(l, r[i]);
    assert JoinedAt(m, [r[i]], 0);
    if |r| > 1 {
      BypassRing(l, r, i);
      RingFrame(Bypass(l, r[i]), m, RemoveAt(r, i));
    }
  }

  /** Rings that share no node do not touch each other. */
  lemma {:induction false} RingFrame(l: Links, m: Links, r: seq<nat>)
    requires Ring(l, r) && |m.next| == |l.next| && |m.prev| == |l.prev|
    requires forall k | 0 <= k < |r| && r[k] < |l.next| :: m.next[r[k]] == l.next[r[k]] && m.prev[r[k]] == l.prev[r[k]]
    ensures Ring(m, r)
  {
    forall k | 0 <= k < |r| ensures JoinedAt(m, r, k) {
      RingNode(l, r, k);
      RingNode(l, r, if k + 1 < |r| then k + 1 else 0);
      assert JoinedAt(l, r, k);
    }
  }

  /** rt_list_remove after the insertion of a node restores the ring. */
  lemma {:induction false} InsertThenRemove(r: seq<nat>, i: nat, n: nat)
    requires i <= |r|
    ensures RemoveAt(Insert(r, i, n), i) == r
  {
    assert Insert(r, i, n)[..i] == r[..i];
  }
}

/** The list operations of rtservice.h on the nodes of a program */
module Lists {
  import opened Rings

  class Nodes {
    const next: array<nat>
    const prev: array<nat>

    ghost function View(): Links
      reads next, prev
    {
      Links(next[..], prev[..])
    }

    constructor (n: nat)
      ensures next.Length == n && prev.Length == n && next != prev && fresh(next) && fresh(prev)
    {
      next := new nat[n];
      prev := new nat[n];
    }

    /** rt_list_init: a ring of one node */
    method Init(n: nat)
      requires next != prev && next.Length == prev.Length && n < next.Length
      modifies next, prev
      ensures Ring(View(), [n])
      ensures View() == Links(old(next[..])[n := n], old(prev[..])[n := n])
    {
      prev[n] := n;
      next[n] := n;
      assert JoinedAt(View(), [n], 0);
    }

    /** rt_list_insert_after */
    method InsertAfter(a: nat, n: nat, ghost r: seq<nat>, ghost i: nat)
      requires next != prev && Ring(View(), r) && i < |r| && r[i] == a && n < next.Length && n !in r
      modifies next, prev
      ensures a < |old(View()).next| && old(View()).next[a] < |old(View()).next|
      ensures View() == Rings.InsertAfter(old(View()), a, n) && Ring(View(), Insert(r, i + 1, n))
    {
      ghost var l := View();
      InsertAfterRing(l, r, i, n);
      hide Ring, Insert;
      prev[next[a]] := n;
      next[n] := next[a];
      next[a] := n;
      prev[n] := a;
      assert View() == Rings.InsertAfter(l, a, n);
    }

    /** rt_list_insert_before any node; before the first one, the new node closes the ring. */
    method InsertBefore(a: nat, n: nat, ghost r: seq<nat>, ghost i: nat)
      requires next != prev && Ring(View(), r) && i < |r| && r[i] == a && n < next.Length && n !in r
      modifies next, prev
      ensures a < |old(View()).next| && old(View()).prev[a] < |old(View()).next|
      ensures View() == Rings.InsertBefore(old(View()), a, n)
      ensures Ring(View(), if i == 0 then r + [n] else Insert(r, i, n))
    {
      ghost var l := View();
      RingNode(l, r, i);
      InsertBeforeRing(l, r, i, n);
      hide Ring, Insert;
      next[prev[a]] := n;
      prev[n] := prev[a];
      prev[a] := n;
      next[n] := a;
      assert View() == Rings.InsertBefore(l, a, n);
    }

    /** rt_list_remove: the ring closes behind the node, which is then a ring of its own. */
    method Remove(n: nat, ghost r: seq<nat>, ghost i: nat)
      requires next != prev && Ring(View(), r) && i < |r| && r[i] == n
      modifies next, prev
      ensures Ring(View(), [n]) && (|r| > 1 ==> Ring(View(), RemoveAt(r, i)))
      ensures n < |old(View()).next| && old(View()).next[n] < |old(View()).next| && old(View()).prev[n] < |old(View()).next|
      ensures View() == Isolate(old(View()), n)
    {
      ghost var l := View();
      RingNode(l, r, i);
      IsolateRing(l, r, i);
      hide Ring, RemoveAt;
      prev[next[n]] := prev[n];
      next[prev[n]] := next[n];
      assert View() == Bypass(l, n);
      prev[n] := n;
      next[n] := n;
      assert View() == Isolate(l, n);
    }

    /** The neighbours of a node are linked with each other; its own links stay. */
    method Skip(n: nat, ghost r: seq<nat>, ghost i: nat)
      requires next != prev && Ring(View(), r) && i < |r| && |r| > 1 && r[i] == n
      modifies next, prev
      ensures Ring(View(), RemoveAt(r, i))
    {
      ghost var l := View();
      BypassRing(l, r, i);
      hide Ring, RemoveAt;
      prev[next[n]] := prev[n];
      next[prev[n]] := next[n];
      assert View() == Bypass(l, n);
    }

    /** rt_list_isempty: the header links to itself exactly when the list has no other node. */
    method IsEmpty(a: nat, ghost r: seq<nat>) returns (b: bool)
      requires Ring(View(), r) && r[0] == a
      ensures b <==> |r| == 1
    {
      RingNode(View(), r, 0);
      b := next[a] == a;
    }
  }
}

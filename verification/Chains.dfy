/**
  Singly linked lists through the objects they link.

  A node is a number and `next` gives its link; a list starts in a variable of its own.
 */
module Chains {
  import opened Rings

  const NULL := -1

  /** The first node, or where a list without nodes leads */
  function HeadOf(ns: seq<nat>, end: int): int {
    if ns == [] then end else ns[0]
  }

  /** From `start`, the links run through `ns` and lead to `end`. */
  ghost predicate Seg(next: seq<int>, start: int, ns: seq<nat>, end: int)
    decreases |ns|
  {
    if ns == [] then start == end
    else start == ns[0] && ns[0] < |next| && Seg(next, next[ns[0]], ns[1..], end)
  }

  /** From `start`, the links run through `ns` and end. */
  ghost predicate Linked(next: seq<int>, start: int, ns: seq<nat>) {
    Seg(next, start, ns, NULL)
  }

  lemma {:induction false} SegNodes(next: seq<int>, start: int, ns: seq<nat>, end: int)
    requires Seg(next, start, ns, end)
    ensures start == HeadOf(ns, end)
    ensures forall n | n in ns :: n < |next|
    decreases |ns|
  {
    if ns != [] {
      SegNodes(next, next[ns[0]], ns[1..], end);
      assert forall n | n in ns :: n == ns[0] || n in ns[1..];
    }
  }

  /** A list in two parts */
  lemma {:induction false} SegConcat(next: seq<int>, start: int, x: seq<nat>, y: seq<nat>, end: int)
    ensures Seg(next, start, x + y, end) <==> Seg(next, start, x, HeadOf(y, end)) && Seg(next, HeadOf(y, end), y, end)
    decreases |x|
  {
    if x == [] {
      assert x + y == y;
      if Seg(next, start, y, end) {
        SegNodes(next, start, y, end);
      }
    } else {
      assert (x + y)[1..] == x[1..] + y;
      if x[0] < |next| {
        SegConcat(next, next[x[0]], x[1..], y, end);
      }
    }
  }

  /** Links of other nodes do not matter. */
  lemma {:induction false} SegFrame(next: seq<int>, m: seq<int>, start: int, ns: seq<nat>, end: int)
    requires Seg(next, start, ns, end)
    requires forall n | n in ns && n < |next| :: n < |m| && m[n] == next[n]
    ensures Seg(m, start, ns, end)
    decreases |ns|
  {
    if ns != [] {
      assert ns[0] in ns;
      assert forall n | n in ns[1..] :: n in ns;
      SegFrame(next, m, next[ns[0]], ns[1..], end);
    }
  }

  /** The link of the last node says where the list leads. */
  lemma {:induction false} SegRetarget(next: seq<int>, start: int, ns: seq<nat>, end: int, v: int)
    requires Seg(next, start, ns, end) && ns != [] && NoDup(ns)
    ensures ns[|ns| - 1] < |next| && next[ns[|ns| - 1]] == end
    ensures Seg(next[ns[|ns| - 1] := v], start, ns, v)
    decreases |ns|
  {
    var l := ns[|ns| - 1];
    if |ns| == 1 {
      assert ns[1..] == [];
    } else {
      assert ns[1..][|ns| - 2] == l;
      SegRetarget(next, next[ns[0]], ns[1..], end, v);
      assert ns[0] != l;
    }
  }

  /** The nodes `ns[lo..hi]` are replaced by `mid`. */
  function Respliced(ns: seq<nat>, lo: nat, hi: nat, mid: seq<nat>): seq<nat>
    requires lo <= hi <= |ns|
  {
    ns[..lo] + mid + ns[hi..]
  }

  /** The parts of a list */
  lemma {:induction false} SegParts(next: seq<int>, start: int, ns: seq<nat>, lo: nat, hi: nat)
    requires Linked(next, start, ns) && lo <= hi <= |ns|
    ensures Seg(next, start, ns[..lo], HeadOf(ns[lo..], NULL))
    ensures Seg(next, HeadOf(ns[hi..], NULL), ns[hi..], NULL)
    ensures lo == 0 ==> start == HeadOf(ns, NULL)
  {
    assert ns == ns[..lo] + ns[lo..] && ns == ns[..hi] + ns[hi..];
    SegConcat(next, start, ns[..lo], ns[lo..], NULL);
    SegConcat(next, start, ns[..hi], ns[hi..], NULL);
    SegNodes(next, start, ns, NULL);
  }

  /**
    Pointer-to-pointer update: the new nodes lead to the rest of the list, and the link before
    them, or the start of the list, is set to the first of them.
   */
  lemma {:induction false} Relinked(next: seq<int>, m: seq<int>, start: int, ns: seq<nat>, lo: nat, hi: nat, mid: seq<nat>)
    requires Linked(next, start, ns) && NoDup(ns) && lo <= hi <= |ns| && |m| == |next|
    requires forall n | n in ns[..lo] + ns[hi..] && n < |next| :: m[n] == next[n]
    requires forall n | n in mid :: n !in ns[..lo]
    requires Seg(m, HeadOf(mid, HeadOf(ns[hi..], NULL)), mid, HeadOf(ns[hi..], NULL))
    ensures lo == 0 ==> Linked(m, HeadOf(mid, HeadOf(ns[hi..], NULL)), Respliced(ns, lo, hi, mid))
    ensures lo > 0 ==> ns[lo - 1] < |m| &&
                       Linked(m[ns[lo - 1] := HeadOf(mid, HeadOf(ns[hi..], NULL))], start, Respliced(ns, lo, hi, mid))
  {
    var rest := ns[hi..];
    var v := HeadOf(mid, HeadOf(rest, NULL));
    SegParts(next, start, ns, lo, hi);
    SegFrame(next, m, HeadOf(rest, NULL), rest, NULL);
    SegFrame(next, m, start, ns[..lo], HeadOf(ns[lo..], NULL));
    SegConcat(m, v, mid, rest, NULL);
    if lo == 0 {
      assert Respliced(ns, lo, hi, mid) == mid + rest;
    } else {
      Retarget(m, start, ns[..lo], HeadOf(ns[lo..], NULL), mid + rest, ns[lo - 1], ns, hi, mid);
      assert Respliced(ns, lo, hi, mid) == ns[..lo] + (mid + rest);
    }
  }

  lemma {:induction false} Retarget(m: seq<int>, start: int, front: seq<nat>, was: int, back: seq<nat>, l: nat,
                                    ns: seq<nat>, hi: nat, mid: seq<nat>)
    requires Seg(m, start, front, was) && front != [] && l == front[|front| - 1]
    requires hi <= |ns| && |front| <= hi && front == ns[..|front|] && NoDup(ns) && back == mid + ns[hi..]
    requires forall n | n in mid :: n !in front
    requires Seg(m, HeadOf(back, NULL), back, NULL)
    ensures l < |m| && Linked(m[l := HeadOf(back, NULL)], start, front + back)
  {
    SegRetarget(m, start, front, was, HeadOf(back, NULL));
    forall n | n in back ensures n != l {
      assert l in front;
      if n !in mid {
        var k :| 0 <= k < |ns[hi..]| && ns[hi..][k] == n;
        assert ns[hi + k] == n && ns[|front| - 1] == l;
      }
    }
    SegFrame(m, m[l := HeadOf(back, NULL)], HeadOf(back, NULL), back, NULL);
    SegConcat(m[l := HeadOf(back, NULL)], start, front, back, NULL);
  }

  // ---------------------------------------------------------------------------------
  // Common updates
  // ---------------------------------------------------------------------------------

  /** Writing the link of a node outside a list leaves the list alone. */
  lemma {:induction false} LinkedFrame(next: seq<int>, start: int, nodes: seq<nat>, n: nat, v: int)
    requires Linked(next, start, nodes) && n !in nodes && n < |next|
    ensures Linked(next[n := v], start, nodes)
  {
    SegFrame(next, next[n := v], start, nodes, NULL);
  }

  /** Dropping the first node */
  lemma {:induction false} LinkedTail(next: seq<int>, start: int, nodes: seq<nat>)
    requires Linked(next, start, nodes) && nodes != []
    ensures nodes[0] < |next| && Linked(next, next[nodes[0]], nodes[1..])
  {
  }

  /** Putting a node in front */
  lemma {:induction false} LinkedCons(next: seq<int>, start: int, nodes: seq<nat>, n: nat)
    requires Linked(next, start, nodes) && n !in nodes && n < |next|
    ensures Linked(next[n := start], n, [n] + nodes)
  {
    LinkedFrame(next, start, nodes, n, start);
    assert ([n] + nodes)[1..] == nodes;
  }

  /** Hanging a terminated node on the last one */
  lemma {:induction false} LinkedSnoc(next: seq<int>, start: int, nodes: seq<nat>, n: nat)
    requires Linked(next, start, nodes) && n !in nodes && n < |next| && next[n] == NULL && NoDup(nodes)
    ensures nodes == [] ==> Linked(next, n, [n])
    ensures nodes != [] ==> nodes[|nodes| - 1] < |next| && Linked(next[nodes[|nodes| - 1] := n], start, nodes + [n])
  {
    assert [n][1..] == [];
    if nodes != [] {
      var l := nodes[|nodes| - 1];
      SegRetarget(next, start, nodes, NULL, n);
      assert l in nodes;
      var m := next[l := n];
      assert Seg(m, n, [n], NULL);
      SegConcat(m, start, nodes, [n], NULL);
    }
  }
}

/**
  Lists of threads, linked through one node in each thread.

  Node `t` is the one in thread `t`; node `n + h` is the header of list `h`, for `n` threads.
 */
module ListTables {
  import opened Rings
  import opened Lists
  import opened ThreadLists
  import opened ReadyIndex

  /** The nodes of list `h`, header first */
  function ListRing(n: nat, lists: seq<seq<nat>>, h: nat): seq<nat>
    requires h < |lists|
  {
    [n + h] + lists[h]
  }

  /** Every list is a ring through its header, and a thread on no list is a ring of its own. */
  ghost predicate Laid(l: Links, n: nat, lists: seq<seq<nat>>, at: seq<int>) {
    && |at| == n && Listed(lists, at) && |l.next| == n + |lists| && |l.prev| == n + |lists|
    && (forall h | 0 <= h < |lists| :: Ring(l, ListRing(n, lists, h)))
    && (forall t: nat | t < n && at[t] == -1 :: Ring(l, [t]))
  }

  /** Links outside one list and one thread are the same. */
  ghost predicate SameElsewhere(l: Links, m: Links, r: seq<nat>, t: nat) {
    && |m.next| == |l.next| && |m.prev| == |l.prev|
    && (forall x: nat | x < |l.next| && x < |l.prev| && x !in r && x != t :: m.next[x] == l.next[x] && m.prev[x] == l.prev[x])
  }

  lemma {:induction false} OtherList(n: nat, lists: seq<seq<nat>>, at: seq<int>, g: nat, h: nat, x: nat)
    requires Listed(lists, at) && |at| == n && g < |lists| && h < |lists| && g != h && x in ListRing(n, lists, g)
    ensures x !in ListRing(n, lists, h)
    ensures x < n ==> at[x] == g
  {
    OnList(lists, at, g, x);
    OnList(lists, at, h, x);
  }

  lemma {:induction false} LaidListed(l: Links, n: nat, lists: seq<seq<nat>>, at: seq<int>)
    requires Laid(l, n, lists, at)
    ensures |at| == n && Listed(lists, at) && |l.next| == n + |lists| && |l.prev| == n + |lists|
  {
  }

  lemma {:induction false} LaidList(l: Links, n: nat, lists: seq<seq<nat>>, at: seq<int>, h: nat)
    requires Laid(l, n, lists, at) && h < |lists|
    ensures Ring(l, ListRing(n, lists, h)) && |ListRing(n, lists, h)| == |lists[h]| + 1
    ensures forall j | 0 <= j < |lists[h]| :: lists[h][j] < n
  {
    forall j | 0 <= j < |lists[h]| ensures lists[h][j] < n {
      OnList(lists, at, h, lists[h][j]);
    }
  }

  /** One thread joins or leaves list `h`; the other lists are not touched. */
  lemma {:induction false} Relaid(l: Links, m: Links, n: nat, lists: seq<seq<nat>>, at: seq<int>,
                                  h: nat, t: nat, list: seq<nat>, to: int)
    requires Laid(l, n, lists, at) && h < |lists| && t < n && (at[t] == -1 || at[t] == h) && (to == -1 || to == h)
    requires SameElsewhere(l, m, ListRing(n, lists, h), t)
    requires Listed(lists[h := list], at[t := to])
    requires Ring(m, [n + h] + list) && (to == -1 ==> Ring(m, [t]))
    ensures Laid(m, n, lists[h := list], at[t := to])
  {
    hide Ring;
    var after := lists[h := list];
    forall g | 0 <= g < |lists| ensures Ring(m, ListRing(n, after, g)) {
      if g != h {
        var r := ListRing(n, lists, g);
        forall x | x in r ensures x !in ListRing(n, lists, h) && x != t {
          OtherList(n, lists, at, g, h, x);
        }
        assert Ring(l, r);
        RingFrame(l, m, r);
      }
    }
    forall u: nat | u < n && at[t := to][u] == -1 ensures Ring(m, [u]) {
      if u != t {
        assert Ring(l, [u]);
        OnList(lists, at, h, u);
        RingFrame(l, m, [u]);
      }
    }
  }

  /** The node in front of which a thread goes that becomes element `i` of list `h` */
  function Before(n: nat, lists: seq<seq<nat>>, h: nat, i: nat): nat
    requires h < |lists| && i <= |lists[h]|
  {
    if i < |lists[h]| then lists[h][i] else n + h
  }

  lemma {:induction false} InsertElsewhere(l: Links, r: seq<nat>, j: nat, t: nat)
    requires Ring(l, r) && j < |r| && t < |l.next|
    ensures r[j] < |l.next| && l.prev[r[j]] < |l.next| && SameElsewhere(l, InsertBefore(l, r[j], t), r, t)
  {
    RingNode(l, r, j);
    hide Ring;
    assert l.prev[r[j]] in r && r[j] in r;
  }

  lemma {:induction false} RingList(header: nat, list: seq<nat>, i: nat, t: nat)
    requires i <= |list|
    ensures i < |list| ==> [header] + Insert(list, i, t) == Insert([header] + list, i + 1, t)
    ensures i == |list| ==> [header] + Insert(list, i, t) == [header] + list + [t]
  {
  }

  /** Insertion into the ring of one list */
  lemma {:induction false} ListInsert(l: Links, header: nat, list: seq<nat>, i: nat, t: nat, a: nat)
    requires Ring(l, [header] + list) && i <= |list| && t < |l.next| && t !in list && t != header
    requires a == if i < |list| then list[i] else header
    ensures a < |l.next| && l.prev[a] < |l.next|
    ensures Ring(InsertBefore(l, a, t), [header] + Insert(list, i, t))
    ensures SameElsewhere(l, InsertBefore(l, a, t), [header] + list, t)
  {
    var r, j := [header] + list, if i < |list| then i + 1 else 0;
    assert r[j] == a;
    hide Insert, Ring, InsertBefore, SameElsewhere;
    InsertBeforeRing(l, r, j, t);
    InsertElsewhere(l, r, j, t);
    RingList(header, list, i, t);
  }

  lemma {:induction false} LaidInsert(l: Links, n: nat, lists: seq<seq<nat>>, at: seq<int>, h: nat, i: nat, t: nat)
    requires Laid(l, n, lists, at) && t < n == |at| && at[t] == -1 && h < |lists| && i <= |lists[h]|
    ensures var a := Before(n, lists, h, i);
            a < |l.next| && t < |l.next| && l.prev[a] < |l.next|
            && Laid(InsertBefore(l, a, t), n, WithThread(lists, h, i, t), at[t := h])
  {
    hide Insert, Listed, Ring, InsertBefore, SameElsewhere, Laid;
    LaidListed(l, n, lists, at);
    LaidList(l, n, lists, at, h);
    OnList(lists, at, h, t);
    AttachOk(lists, at, h, i, t);
    var a := Before(n, lists, h, i);
    ListInsert(l, n + h, lists[h], i, t, a);
    Relaid(l, InsertBefore(l, a, t), n, lists, at, h, t, Insert(lists[h], i, t), h);
  }

  /** Removal from the ring of one list */
  lemma {:induction false} ListRemove(l: Links, header: nat, list: seq<nat>, i: nat, t: nat)
    requires Ring(l, [header] + list) && i < |list| && t == list[i]
    ensures t < |l.next| && l.next[t] < |l.next| && l.prev[t] < |l.next|
    ensures Ring(Isolate(l, t), [header] + RemoveAt(list, i)) && Ring(Isolate(l, t), [t])
    ensures SameElsewhere(l, Isolate(l, t), [header] + list, t)
  {
    var r := [header] + list;
    assert r[i + 1] == t;
    IsolateRing(l, r, i + 1);
    RingNode(l, r, i + 1);
    hide Ring;
    assert [header] + RemoveAt(list, i) == RemoveAt(r, i + 1);
    assert l.prev[t] in r && l.next[t] in r;
  }

  lemma {:induction false} LaidUnlink(l: Links, n: nat, lists: seq<seq<nat>>, at: seq<int>, t: nat, h: nat, i: nat)
    requires Laid(l, n, lists, at) && t < n == |at| && at[t] == h < |lists| && i < |lists[h]| && lists[h][i] == t
    requires Listed(lists[h := RemoveAt(lists[h], i)], at[t := -1])
    ensures t < |l.next| && l.next[t] < |l.next| && l.prev[t] < |l.next|
            && Laid(Isolate(l, t), n, lists[h := RemoveAt(lists[h], i)], at[t := -1])
  {
    hide RemoveAt, Listed, Ring, Isolate, SameElsewhere, Laid;
    LaidList(l, n, lists, at, h);
    ListRemove(l, n + h, lists[h], i, t);
    Relaid(l, Isolate(l, t), n, lists, at, h, t, RemoveAt(lists[h], i), -1);
  }

  lemma {:induction false} LaidRemove(l: Links, n: nat, lists: seq<seq<nat>>, at: seq<int>, t: nat)
    requires Laid(l, n, lists, at) && t < n
    ensures t < |l.next| && l.next[t] < |l.next| && l.prev[t] < |l.next|
            && Laid(Isolate(l, t), n, WithoutThread(lists, at, t), at[t := -1])
  {
    var h := at[t];
    if h == -1 {
      RingNode(l, [t], 0);
      assert Isolate(l, t) == l && at[t := -1] == at;
    } else {
      OnList(lists, at, h, t);
      DetachOk(lists, at, t);
      var i := Position(lists[h], t);
      LaidUnlink(l, n, lists, at, t, h, i);
    }
  }

  /** Nodes `0 .. k` are rings of their own. */
  ghost predicate Alone(l: Links, k: nat) {
    && k <= |l.next| && |l.prev| == |l.next|
    && (forall x: nat | x < k :: l.next[x] == x && l.prev[x] == x)
  }

  lemma {:induction false} LaidEmpty(l: Links, n: nat, count: nat)
    requires |l.next| == n + count && Alone(l, n + count)
    ensures Laid(l, n, Repeat([], count), Repeat(-1, n))
  {
    var lists: seq<seq<nat>> := Repeat([], count);
    forall h | 0 <= h < count ensures Ring(l, ListRing(n, lists, h)) {
      assert ListRing(n, lists, h) == [n + h];
      assert JoinedAt(l, [n + h], 0);
    }
    forall t: nat | t < n ensures Ring(l, [t]) {
      assert JoinedAt(l, [t], 0);
    }
  }

  class Table {
    const threads: nat
    const nodes: Nodes
    ghost var lists: seq<seq<nat>>
    ghost var at: seq<int>

    ghost predicate Valid()
      reads this, nodes, nodes.next, nodes.prev
    {
      nodes.next != nodes.prev && Laid(nodes.View(), threads, lists, at)
    }

    /** Empty lists and threads on none of them */
    constructor (threads: nat, count: nat)
      ensures Valid() && this.threads == threads && lists == Repeat([], count) && at == Repeat(-1, threads)
      ensures fresh(nodes) && fresh(nodes.next) && fresh(nodes.prev)
    {
      this.threads := threads;
      nodes := new Nodes(threads + count);
      lists, at := Repeat([], count), Repeat(-1, threads);
      new;
      for x := 0 to threads + count
        invariant nodes.next != nodes.prev && nodes.next.Length == threads + count && nodes.prev.Length == threads + count
        invariant Alone(nodes.View(), x)
        invariant lists == Repeat([], count) && at == Repeat(-1, threads)
      {
        nodes.Init(x);
      }
      LaidEmpty(nodes.View(), threads, count);
    }

    /** The node behind a node of list `h`; the first thread, if the node is the header */
    method Following(h: nat, ghost i: nat, x: nat) returns (y: nat)
      requires Valid() && h < |lists| && i <= |lists[h]| && x == if i == 0 then threads + h else lists[h][i - 1]
      ensures y == Before(threads, lists, h, i)
    {
      LaidList(nodes.View(), threads, lists, at, h);
      RingNode(nodes.View(), ListRing(threads, lists, h), i);
      hide Laid, Ring;
      y := nodes.next[x];
    }

    /** rt_list_isempty */
    method IsEmpty(h: nat) returns (b: bool)
      requires Valid() && h < |lists|
      ensures b <==> lists[h] == []
    {
      LaidList(nodes.View(), threads, lists, at, h);
      hide Laid, Ring;
      b := nodes.IsEmpty(threads + h, ListRing(threads, lists, h));
    }

    /** The neighbours of a listed thread differ exactly when it is not alone on its list. */
    method HasPeers(t: nat) returns (b: bool)
      requires Valid() && t < |at| && at[t] >= 0
      ensures at[t] < |lists| && (b <==> |lists[at[t]]| > 1)
    {
      ghost var h := at[t];
      OnList(lists, at, h, t);
      LaidList(nodes.View(), threads, lists, at, h);
      ghost var r, i := ListRing(threads, lists, h), Position(lists[h], t);
      RingNode(nodes.View(), r, i + 1);
      b := nodes.next[t] != nodes.prev[t];
    }

    /** rt_list_insert_before node `a`, where the thread becomes element `i` of list `h` */
    method Insert(h: nat, ghost i: nat, a: nat, t: nat)
      requires Valid() && h < |lists| && i <= |lists[h]| && a == Before(threads, lists, h, i)
      requires t < |at| && at[t] == -1
      modifies this, nodes.next, nodes.prev
      ensures Valid() && lists == WithThread(old(lists), h, i, t) && at == old(at)[t := h]
    {
      ghost var r, j := ListRing(threads, lists, h), if i < |lists[h]| then i + 1 else 0;
      LaidInsert(nodes.View(), threads, lists, at, h, i, t);
      LaidList(nodes.View(), threads, lists, at, h);
      OnList(lists, at, h, t);
      hide Laid, Ring, Rings.InsertBefore, WithThread;
      nodes.InsertBefore(a, t, r, j);
      lists, at := WithThread(lists, h, i, t), at[t := h];
    }

    /** rt_list_remove */
    method Remove(t: nat)
      requires Valid() && t < |at|
      modifies this, nodes.next, nodes.prev
      ensures Valid() && lists == WithoutThread(old(lists), old(at), t) && at == old(at)[t := -1]
    {
      LaidRemove(nodes.View(), threads, lists, at, t);
      ghost var r, i := RingOf(nodes.View(), threads, lists, at, t);
      hide Laid, Ring, Isolate, WithoutThread;
      nodes.Remove(t, r, i);
      lists, at := WithoutThread(lists, at, t), at[t := -1];
    }
  }

  /** The ring a thread is on */
  lemma {:induction false} RingOf(l: Links, n: nat, lists: seq<seq<nat>>, at: seq<int>, t: nat) returns (r: seq<nat>, i: nat)
    requires Laid(l, n, lists, at) && t < n
    ensures Ring(l, r) && i < |r| && r[i] == t
  {
    if at[t] == -1 {
      r, i := [t], 0;
    } else {
      OnList(lists, at, at[t], t);
      r, i := ListRing(n, lists, at[t]), Position(lists[at[t]], t) + 1;
    }
  }
}

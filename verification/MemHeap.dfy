/**
  A memory heap in place: headers linked into a ring of blocks and a ring of free blocks.

  Links and flags are indexed by the offset of the header; the free list header has the
  index `size`.
 */
module MemHeap {
  import opened Sequences
  import opened Rings
  import opened Lists
  import opened SmallHeapSpec
  import opened SmallHeapProofs
  import opened MemHeapSpec
  import opened MemHeapProofs

  function Offsets(cs: seq<Chunk>): seq<nat> {
    seq(|cs|, i requires 0 <= i < |cs| => cs[i].start)
  }

  /** The ring of blocks: all blocks in address order and the tail */
  function BlockRing(cs: seq<Chunk>, tail: nat): seq<nat> {
    Offsets(cs) + [tail]
  }

  /** The used flag in every header */
  ghost predicate Flags(used: seq<bool>, cs: seq<Chunk>, tail: nat) {
    && tail < |used| && used[tail]
    && (forall c | c in cs :: c.start < |used| && used[c.start] == c.used)
  }

  class Heap {
    const size: nat
    const blocks: Nodes
    const frees: Nodes
    const used: array<bool>
    var avail: int
    ghost var chunks: seq<Chunk>
    ghost var free: seq<nat>

    ghost function View(): Pool
      reads this
    {
      Pool(chunks, size, free, avail)
    }

    /** The objects of the heap do not overlap. */
    ghost predicate Apart()
    {
      && 2 * ITEM <= size && blocks.next.Length == size && blocks.prev.Length == size && used.Length == size
      && frees.next.Length == size + 1 && frees.prev.Length == size + 1
      && blocks.next != blocks.prev && frees.next != frees.prev
    }

    ghost predicate Valid()
      reads this, blocks.next, blocks.prev, frees.next, frees.prev, used
    {
      && Apart() && PoolOk(View())
      && Ring(blocks.View(), BlockRing(chunks, size - ITEM))
      && Ring(frees.View(), [size] + free)
      && Flags(used[..], chunks, size - ITEM)
    }

    /** rt_memheap_init of a pool that has room for its two headers */
    constructor (start: nat)
      requires 2 * ITEM <= AlignDown(start) < WORD_LIMIT
      ensures Valid() && View() == MemHeapSpec.Init(AlignDown(start))
      ensures fresh(blocks.next) && fresh(blocks.prev) && fresh(frees.next) && fresh(frees.prev) && fresh(used)
    {
      var n := AlignDown(start);
      var b := new Nodes(n);
      var f := new Nodes(n + 1);
      size, blocks, frees := n, b, f;
      used := new bool[n];
      avail := n - 2 * ITEM;
      chunks, free := [Chunk(0, n - ITEM, false)], [0];
      new;
      hide PoolOk, Ring, BlockRing, Flags, AlignDown;
      InitPoolOk(n);
      frees.Init(n);
      frees.InsertAfter(n, 0, [n], 0);
      assert Insert([n], 1, 0) == [n] + free;
      WriteFirst(n - ITEM);
    }

    /** The headers of the first block and of the tail */
    method WriteFirst(tail: nat)
      requires blocks.next != blocks.prev && blocks.next.Length == blocks.prev.Length == used.Length && 0 < tail < used.Length
      modifies blocks.next, blocks.prev, used
      ensures Ring(blocks.View(), BlockRing([Chunk(0, tail, false)], tail)) && Flags(used[..], [Chunk(0, tail, false)], tail)
    {
      blocks.next[0], blocks.prev[0] := tail, tail;
      blocks.next[tail], blocks.prev[tail] := 0, 0;
      used[0], used[tail] := false, true;
      hide Ring, BlockRing, Flags;
      TwoRing(blocks.View(), tail);
      InitFlags(used[..], tail);
    }

    /** The free size of the block at offset `h`: from its header to the next */
    method RoomOf(h: nat, ghost i: nat) returns (n: int)
      requires Valid() && i < |chunks| && chunks[i].start == h
      ensures n == Room(chunks[i]) && h < blocks.next.Length
    {
      NextIsEnd(blocks.View(), chunks, size - ITEM, i);
      hide PoolOk, Ring;
      n := blocks.next[h] - h - ITEM;
    }

    /** The search loop of rt_memheap_alloc */
    method Search(want: nat) returns (h: nat, room: int, ghost j: nat)
      requires Valid() && want > 0
      ensures j == Pick(chunks, free, want)
      ensures
        var k := Pick(chunks, free, want);
        if k < |free| then h == free[k] && room == RoomAt(chunks, h) else h == size && room < want
    {
      hide PoolOk, Ring, Flags, IndexOf;
      RingNode(frees.View(), [size] + free, 0);
      h := frees.next[size];
      room := 0;
      j := 0;
      while h != size && room < want
        invariant j <= |free| && Pick(chunks, free, want) == Pick(chunks, free, want, j)
        invariant h == if j < |free| then free[j] else size
        invariant room >= want ==> j < |free| && room == RoomAt(chunks, h)
        decreases |free| - j, if room < want then 1 else 0
      {
        FreeIsNotHeader(View(), j);
        room := RoomOf(h, IndexOf(chunks, h));
        if room < want {
          RingNode(frees.View(), [size] + free, j + 1);
          h := frees.next[h];
          j := j + 1;
        }
      }
      if j < |free| {
        FreeIsNotHeader(View(), j);
      }
    }

    /** rt_memheap_alloc cuts the block: the rest becomes a block and the first on the free list. */
    method Split(h: nat, want: nat, ghost i: nat, ghost j: nat)
      requires Valid() && i < |chunks| && j < |free| && chunks[i].start == h == free[j] && !chunks[i].used
      requires want % 4 == 0 && Splits(chunks[i], want)
      modifies blocks.next, blocks.prev, frees.next, frees.prev, used
      ensures
        var m := TakeAt(View(), i, j, want);
        && Ring(blocks.View(), BlockRing(m.chunks, size - ITEM)) && Ring(frees.View(), [size] + m.free)
        && Flags(used[..], m.chunks, size - ITEM)
    {
      var rest := h + want + ITEM;
      ghost var m := View();
      hide PoolOk, Ring, Flags, BlockRing, Splice, RemoveAt;
      SplitOffsets(m, i, want);
      NotListed(m, rest, i);
      SplitFlags(used[..], m, i, want);
      SplitList(m, i, j, want);
      used[rest] := false;
      used[h] := true;
      blocks.InsertAfter(h, rest, BlockRing(chunks, size - ITEM), i);
      frees.Skip(h, [size] + free, j + 1);
      frees.InsertAfter(size, rest, [size] + RemoveAt(free, j), 0);
    }

    /** rt_memheap_alloc takes the whole block. */
    method TakeWhole(h: nat, want: nat, ghost i: nat, ghost j: nat)
      requires Valid() && i < |chunks| && j < |free| && chunks[i].start == h == free[j] && !chunks[i].used
      requires !Splits(chunks[i], want)
      modifies frees.next, frees.prev, used
      ensures
        var m := TakeAt(View(), i, j, want);
        && Ring(blocks.View(), BlockRing(m.chunks, size - ITEM)) && Ring(frees.View(), [size] + m.free)
        && Flags(used[..], m.chunks, size - ITEM)
    {
      ghost var m := View();
      WholeFlags(used[..], m, i, want);
      assert ([size] + free)[j + 1] == h;
      hide PoolOk, Ring, Flags;
      used[h] := true;
      frees.Skip(h, [size] + free, j + 1);
      assert RemoveAt([size] + free, j + 1) == [size] + RemoveAt(free, j);
    }

    /** rt_memheap_alloc */
    method Alloc(request: nat) returns (p: Ptr)
      requires Valid() && request < WORD_LIMIT
      modifies this, blocks.next, blocks.prev, frees.next, frees.prev, used
      ensures Valid() && View() == MemHeapSpec.Alloc(old(View()), request).0 && p == MemHeapSpec.Alloc(old(View()), request).1
    {
      hide PoolOk, Ring, Flags, Pick, IndexOf, MemHeapSpec.Alloc, TakeAt;
      ghost var m := View();
      var want := MemHeapSpec.Want(request);
      AllocCases(m, request);
      hide MemHeapSpec.Want;
      if want >= avail {
        return Null;
      }
      var h, room, j := Search(want);
      if room < want {
        return Null;
      }
      ghost var i := IndexOf(chunks, h);
      AllocIs(m, request, i, j);
      p := At(h + ITEM);
      if room >= want + ITEM + MIN_ALLOC {
        Split(h, want, i, j);
        avail := avail - want - ITEM;
      } else {
        TakeWhole(h, want, i, j);
        avail := avail - room;
      }
      ghost var t := TakeAt(m, i, j, want);
      chunks, free := t.chunks, t.free;
      assert View() == t;
    }

    /** rt_memheap_free merges the block into a free block before it. */
    method JoinLeft(h: nat, ghost i: nat, ghost was: seq<bool>) returns (at: nat, insert: bool)
      requires Apart() && PoolOk(View().(avail := FreeBytes(chunks))) && Ring(blocks.View(), BlockRing(chunks, size - ITEM))
      requires Flags(was, chunks, size - ITEM) && i < |chunks| && chunks[i].start == h
      requires |was| == size && used[..] == was[h := false]
      modifies this`avail, blocks.next, blocks.prev
      ensures insert == !LeftFree(chunks, i) && at == (if insert then h else chunks[i - 1].start)
      ensures avail == old(avail) + if insert then 0 else ITEM
      ensures Ring(blocks.View(), RingLeft(chunks, size - ITEM, i))
    {
      NextIsEnd(blocks.View(), chunks, size - ITEM, i);
      NeighbourFlags(was, View().(avail := FreeBytes(chunks)), i);
      assert BlockRing(chunks, size - ITEM)[i] == h;
      hide PoolOk, Ring, Flags;
      at, insert := h, true;
      var l := blocks.prev[h];
      assert used[l] == used[..][l];
      if !used[l] {
        avail := avail + ITEM;
        blocks.Skip(h, BlockRing(chunks, size - ITEM), i);
        at, insert := l, false;
      }
    }

    /** rt_memheap_free merges a free block after it into the block. */
    method JoinRight(h: nat, ghost i: nat, ghost was: seq<bool>)
      requires Apart() && PoolOk(View().(avail := FreeBytes(chunks))) && Ring(frees.View(), [size] + free)
      requires Flags(was, chunks, size - ITEM) && i < |chunks|
      requires |was| == size && used[..] == was[chunks[i].start := false]
      requires Ring(blocks.View(), RingLeft(chunks, size - ITEM, i))
      requires h == if LeftFree(chunks, i) then chunks[i - 1].start else chunks[i].start
      modifies this`avail, blocks.next, blocks.prev, frees.next, frees.prev
      ensures avail == old(avail) + if RightFree(chunks, i) then ITEM else 0
      ensures Ring(blocks.View(), RingBoth(chunks, size - ITEM, i))
      ensures Ring(frees.View(), [size] + if RightFree(chunks, i) then Unlink(free, chunks[i + 1].start) else free)
    {
      hide PoolOk, Ring, Flags, RingLeft, RingBoth, FreeBytes, Unlink;
      ghost var r := RingLeft(chunks, size - ITEM, i);
      ghost var k := if LeftFree(chunks, i) then i - 1 else i;
      LeftPlaces(chunks, size - ITEM, i);
      RingNode(blocks.View(), r, k);
      RightReady(View().(avail := FreeBytes(chunks)), was, i);
      var n := blocks.next[h];
      assert used[n] == used[..][n];
      if !used[n] {
        avail := avail + ITEM;
        ghost var j := Position(free, n);
        blocks.Skip(n, r, k + 1);
        frees.Skip(n, [size] + free, j + 1);
      }
    }

    /** rt_memheap_free merges the block with its free neighbours and sees to the free list. */
    method Merge(h: nat, ghost i: nat, ghost was: seq<bool>)
      requires Apart() && PoolOk(View().(avail := FreeBytes(chunks)))
      requires Ring(blocks.View(), BlockRing(chunks, size - ITEM)) && Ring(frees.View(), [size] + free)
      requires Flags(was, chunks, size - ITEM) && i < |chunks| && chunks[i].start == h && chunks[i].used
      requires |was| == size && used[..] == was[h := false]
      modifies this`avail, blocks.next, blocks.prev, frees.next, frees.prev
      ensures avail == old(avail) + (if LeftFree(chunks, i) then ITEM else 0) + (if RightFree(chunks, i) then ITEM else 0)
      ensures Ring(blocks.View(), RingBoth(chunks, size - ITEM, i))
      ensures Ring(frees.View(), [size] + FreeEntry(free, chunks, i))
    {
      hide PoolOk, Ring, Flags, RingLeft, RingBoth, FreeBytes, BlockRing, Unlink;
      FreshEntry(View().(avail := FreeBytes(chunks)), i);
      var at, insert := JoinLeft(h, i, was);
      JoinRight(at, i, was);
      if insert {
        ghost var rest := if RightFree(chunks, i) then Unlink(free, chunks[i + 1].start) else free;
        frees.InsertAfter(size, at, [size] + rest, 0);
        assert Insert([size] + rest, 1, at) == [size] + FreeEntry(free, chunks, i);
      }
    }

    /** rt_memheap_free of a live pointer */
    method Free(p: Ptr)
      requires Valid() && MemHeapSpec.IsLive(View(), p)
      modifies this, blocks.next, blocks.prev, frees.next, frees.prev, used
      ensures Valid() && View() == MemHeapSpec.Free(old(View()), p)
    {
      hide PoolOk, Ring, Flags, IndexOf, Plug, RingBoth, FreeBytes, MemHeapSpec.FreeAt, BlockRing, FreeEntry;
      var h := p.offset - ITEM;
      ghost var m, was, i := View(), used[..], IndexOf(chunks, h);
      ghost var t := MemHeapSpec.FreeAt(m, i);
      FreeReady(m, was, i);
      var room := RoomOf(h, i);
      used[h] := false;
      avail := avail + room;
      assert used[..] == was[h := false];
      Merge(h, i, was);
      chunks, free := t.chunks, t.free;
      assert View() == t;
    }
  }

  /** What rt_memheap_free relies on and arrives at */
  lemma {:induction false} FreeReady(m: Pool, was: seq<bool>, i: nat)
    requires PoolOk(m) && Flags(was, m.chunks, m.Tail()) && i < |m.chunks| && m.chunks[i].used
    ensures
      var t := MemHeapSpec.FreeAt(m, i);
      && PoolOk(t) && t.size == m.size
      && t.avail == m.avail + Room(m.chunks[i]) + (if LeftFree(m.chunks, i) then ITEM else 0) + (if RightFree(m.chunks, i) then ITEM else 0)
      && m.chunks[i].start < |was| && Flags(was[m.chunks[i].start := false], t.chunks, m.Tail())
      && BlockRing(t.chunks, m.Tail()) == RingBoth(m.chunks, m.Tail(), i)
      && t.free == FreeEntry(m.free, m.chunks, i)
    ensures m.(avail := FreeBytes(m.chunks)) == m
  {
    FreeAtKeeps(m, i);
    FreedFlags(was, m, i);
    BothIsPlug(m.chunks, m.Tail(), i);
    assert m.avail == FreeBytes(m.chunks);
    hide PoolOk, Flags, Plug, RingBoth, FreeBytes, BlockRing, FreeEntry;
  }

  lemma {:induction false} AllocCases(m: Pool, size: nat)
    requires PoolOk(m)
    ensures
      var want := MemHeapSpec.Want(size);
      && want > 0 && want % 4 == 0
      && (want >= m.avail || Pick(m.chunks, m.free, want) == |m.free| ==> MemHeapSpec.Alloc(m, size) == (m, Null))
  {
    WantOk(size);
  }

  lemma {:induction false} AllocIs(m: Pool, size: nat, i: nat, j: nat)
    requires PoolOk(m) && MemHeapSpec.Want(size) < m.avail && j == Pick(m.chunks, m.free, MemHeapSpec.Want(size)) < |m.free|
    requires i == IndexOf(m.chunks, m.free[j])
    ensures i < |m.chunks| && !m.chunks[i].used && m.chunks[i].start == m.free[j]
    ensures
      var t := TakeAt(m, i, j, MemHeapSpec.Want(size));
      && MemHeapSpec.Alloc(m, size) == (t, At(m.free[j] + ITEM)) && PoolOk(t) && t.size == m.size
      && t.avail == (if Splits(m.chunks[i], MemHeapSpec.Want(size)) then m.avail - MemHeapSpec.Want(size) - ITEM
                     else m.avail - Room(m.chunks[i]))
    ensures RoomAt(m.chunks, m.free[j]) == Room(m.chunks[i])
  {
    FreeIsNotHeader(m, j);
    AllocKeeps(m, size);
    hide PoolOk, Pick, IndexOf, Splice, TakeEntry;
  }

  /** The block ring after the merge with the left neighbour, and after both merges */
  function RingLeft(cs: seq<Chunk>, tail: nat, i: nat): seq<nat>
    requires i < |cs|
  {
    if LeftFree(cs, i) then RemoveAt(BlockRing(cs, tail), i) else BlockRing(cs, tail)
  }

  function RingBoth(cs: seq<Chunk>, tail: nat, i: nat): seq<nat>
    requires i < |cs|
  {
    var r := RingLeft(cs, tail, i);
    if RightFree(cs, i) then RemoveAt(r, if LeftFree(cs, i) then i else i + 1) else r
  }

  /** Where the merged block and its right neighbour stand */
  lemma {:induction false} LeftPlaces(cs: seq<Chunk>, tail: nat, i: nat)
    requires i < |cs|
    ensures
      var r := RingLeft(cs, tail, i);
      var k := if LeftFree(cs, i) then i - 1 else i;
      && k + 1 < |r| && r[k] == (if LeftFree(cs, i) then cs[i - 1].start else cs[i].start)
      && r[k + 1] == (if i + 1 < |cs| then cs[i + 1].start else tail)
  {
  }

  lemma {:induction false} OffsetsSplice(cs: seq<Chunk>, lo: nat, hi: nat, mid: seq<Chunk>)
    requires lo <= hi <= |cs|
    ensures Offsets(Splice(cs, lo, hi, mid)) == Offsets(cs)[..lo] + Offsets(mid) + Offsets(cs)[hi..]
  {
  }

  /** Both merges give the ring of the merged row. */
  lemma {:induction false} BothIsPlug(cs: seq<Chunk>, tail: nat, i: nat)
    requires i < |cs|
    ensures BlockRing(Plug(Unmarked(cs, i), i), tail) == RingBoth(cs, tail, i)
  {
    var u, o := Unmarked(cs, i), Offsets(cs);
    assert Offsets(u) == o;
    OffsetsSplice(u, Lo(u, i), Hi(u, i), [Merged(u, i)]);
    assert Offsets([Merged(u, i)]) == [Merged(u, i).start];
    assert Merged(u, i).start == o[Lo(u, i)];
    assert LeftFree(cs, i) ==> Lo(u, i) == i - 1;
    hide Offsets, Splice, Merged, Unmarked;
    if LeftFree(cs, i) {
      assert o[..i] == o[..i - 1] + [o[i - 1]];
      RemoveOnce(o, tail, i);
      if RightFree(cs, i) {
        RemoveTwice(o, tail, i);
      }
    } else {
      assert o[..i] + [o[i]] == o[..i + 1];
      if RightFree(cs, i) {
        RemoveOnce(o, tail, i + 1);
      } else {
        assert o == o[..i + 1] + o[i + 1..];
      }
    }
  }

  lemma {:induction false} RemoveOnce(o: seq<nat>, tail: nat, i: nat)
    requires i < |o|
    ensures RemoveAt(o + [tail], i) == o[..i] + o[i + 1..] + [tail]
  {
  }

  lemma {:induction false} RemoveTwice(o: seq<nat>, tail: nat, i: nat)
    requires i + 1 < |o|
    ensures RemoveAt(RemoveAt(o + [tail], i), i) == o[..i] + o[i + 2..] + [tail]
  {
  }

  /** What the merge to the right looks at and arrives at */
  lemma {:induction false} RightReady(m: Pool, was: seq<bool>, i: nat)
    requires PoolOk(m) && Flags(was, m.chunks, m.Tail()) && |was| == m.size && i < |m.chunks|
    ensures
      var n := if i + 1 < |m.chunks| then m.chunks[i + 1].start else m.Tail();
      var r := RingLeft(m.chunks, m.Tail(), i);
      var j := Position(m.free, n);
      && m.chunks[i].start < |was| && n < |was| && was[m.chunks[i].start := false][n] == !RightFree(m.chunks, i)
      && (!RightFree(m.chunks, i) ==> RingBoth(m.chunks, m.Tail(), i) == r)
      && (RightFree(m.chunks, i) ==>
           && j < |m.free| && ([m.size] + m.free)[j + 1] == n
           && [m.size] + Unlink(m.free, n) == RemoveAt([m.size] + m.free, j + 1)
           && (var k := if LeftFree(m.chunks, i) then i - 1 else i;
               k + 1 < |r| && RingBoth(m.chunks, m.Tail(), i) == RemoveAt(r, k + 1)))
  {
    assert m.Tail() >= 0;
    hide PoolOk, Flags, RingLeft;
    NeighbourFlags(was, m, i);
    NeighboursListed(m, i);
    LeftPlaces(m.chunks, m.Tail(), i);
    hide Unlink, RemoveAt;
    if RightFree(m.chunks, i) {
      SkipEntry(m.size, m.free, m.chunks[i + 1].start);
    }
  }

  /** Taking an entry out of the free list, seen from the ring with its header */
  lemma {:induction false} SkipEntry(header: nat, free: seq<nat>, n: nat)
    requires n in free
    ensures
      var j := Position(free, n);
      j < |free| && ([header] + free)[j + 1] == n && [header] + Unlink(free, n) == RemoveAt([header] + free, j + 1)
  {
    var j := Position(free, n);
    hide Position;
    assert Unlink(free, n) == free[..j] + free[j + 1..];
    assert ([header] + free)[..j + 1] == [header] + free[..j];
    assert ([header] + free)[j + 2..] == free[j + 1..];
  }

  /** The flags of the neighbours of the freed block */
  lemma {:induction false} NeighbourFlags(was: seq<bool>, m: Pool, i: nat)
    requires PoolOk(m) && Flags(was, m.chunks, m.Tail()) && |was| == m.size && i < |m.chunks|
    ensures m.chunks[i].start < |was|
    ensures
      var cs := m.chunks;
      var now := was[cs[i].start := false];
      && (var l := if i > 0 then cs[i - 1].start else m.Tail(); l < |now| && now[l] == !LeftFree(cs, i))
      && (var r := if i + 1 < |cs| then cs[i + 1].start else m.Tail(); r < |now| && now[r] == !RightFree(cs, i))
  {
    TilingSorted(m.chunks, 0, m.Tail());
  }

  lemma {:induction false} FreedFlags(was: seq<bool>, m: Pool, i: nat)
    requires PoolOk(m) && Flags(was, m.chunks, m.Tail()) && i < |m.chunks|
    ensures m.chunks[i].start < |was|
    ensures Flags(was[m.chunks[i].start := false], Plug(Unmarked(m.chunks, i), i), m.Tail())
  {
    var cs, u := m.chunks, Unmarked(m.chunks, i);
    var now := was[cs[i].start := false];
    TilingSorted(cs, 0, m.Tail());
    hide Tiling, PoolOk;
    assert now[m.Tail()];
    UnmarkedFlags(was, cs, m.Tail(), i);
    forall c | c in Plug(u, i) ensures c.start < |now| && now[c.start] == c.used {
      SpliceMembers(u, Lo(u, i), Hi(u, i), [Merged(u, i)], c);
      assert u[Lo(u, i)] in u;
    }
  }

  lemma {:induction false} UnmarkedFlags(was: seq<bool>, cs: seq<Chunk>, tail: nat, i: nat)
    requires Flags(was, cs, tail) && i < |cs| && cs[i].start < |was|
    requires forall j, k | 0 <= j < k < |cs| :: cs[j].start < cs[k].start
    ensures forall c | c in Unmarked(cs, i) :: c.start < |was| && was[cs[i].start := false][c.start] == c.used
  {
    var u := Unmarked(cs, i);
    forall k | 0 <= k < |u| ensures u[k].start < |was| && was[cs[i].start := false][u[k].start] == u[k].used {
      assert cs[k] in cs;
      assert k != i ==> u[k] == cs[k] && (cs[k].start < cs[i].start || cs[i].start < cs[k].start);
    }
  }

  /** A used block is not on the free list. */
  lemma {:induction false} FreshEntry(m: Pool, i: nat)
    requires PoolOk(m) && i < |m.chunks| && m.chunks[i].used
    ensures m.chunks[i].start !in m.free && m.size !in m.free && m.chunks[i].start < m.size
    ensures RightFree(m.chunks, i) ==>
      m.chunks[i].start !in Unlink(m.free, m.chunks[i + 1].start) && m.size !in Unlink(m.free, m.chunks[i + 1].start)
  {
    TilingSorted(m.chunks, 0, m.Tail());
    IndexOfStart(m.chunks, 0, m.Tail(), i);
    forall j | 0 <= j < |m.free| ensures m.free[j] != m.chunks[i].start && m.free[j] != m.size {
      FreeIsNotHeader(m, j);
    }
  }

  lemma {:induction false} InitFlags(used: seq<bool>, tail: nat)
    requires 0 < tail < |used| && !used[0] && used[tail]
    ensures Flags(used, [Chunk(0, tail, false)], tail)
  {
  }

  lemma {:induction false} TwoRing(l: Links, tail: nat)
    requires |l.next| == |l.prev| && 0 < tail < |l.next|
    requires l.next[0] == tail == l.prev[0] && l.next[tail] == 0 == l.prev[tail]
    ensures Ring(l, BlockRing([Chunk(0, tail, false)], tail))
  {
    assert BlockRing([Chunk(0, tail, false)], tail) == [0, tail];
    assert JoinedAt(l, [0, tail], 0) && JoinedAt(l, [0, tail], 1);
  }

  /** The block ring of the cut block */
  lemma {:induction false} SplitOffsets(m: Pool, i: nat, want: nat)
    requires PoolOk(m) && i < |m.chunks| && Splits(m.chunks[i], want)
    ensures
      var rest := m.chunks[i].start + want + ITEM;
      && m.chunks[i].start < rest < m.chunks[i].end <= m.Tail()
      && rest !in BlockRing(m.chunks, m.Tail()) && i < |BlockRing(m.chunks, m.Tail())| && BlockRing(m.chunks, m.Tail())[i] == m.chunks[i].start
      && BlockRing(Splice(m.chunks, i, i + 1, Parts(m.chunks[i], want)), m.Tail()) ==
         Insert(BlockRing(m.chunks, m.Tail()), i + 1, rest)
  {
    var cs, o := m.chunks, Offsets(m.chunks);
    TilingSorted(cs, 0, m.Tail());
    hide PoolOk;
    var rest := cs[i].start + want + ITEM;
    OffsetsSplice(cs, i, i + 1, Parts(cs[i], want));
    assert Offsets(Parts(cs[i], want)) == [cs[i].start, rest];
    assert rest !in o;
    assert o[i] == cs[i].start;
    hide Offsets, Splice;
    assert o[..i] + [o[i], rest] + o[i + 1..] + [m.Tail()] == Insert(o + [m.Tail()], i + 1, rest);
  }

  lemma {:induction false} NotListed(m: Pool, rest: nat, i: nat)
    requires PoolOk(m) && i < |m.chunks| && m.chunks[i].start < rest < m.chunks[i].end
    ensures rest !in m.free && rest < m.size && m.size !in m.free
  {
    TilingSorted(m.chunks, 0, m.Tail());
    forall j | 0 <= j < |m.free| ensures m.free[j] != rest && m.free[j] != m.size {
      FreeIsNotHeader(m, j);
    }
  }

  /** The free list while a block is cut */
  lemma {:induction false} SplitList(m: Pool, i: nat, j: nat, want: nat)
    requires i < |m.chunks| && j < |m.free| && Splits(m.chunks[i], want)
    ensures
      var rest := m.chunks[i].start + want + ITEM;
      && ([m.size] + m.free)[j + 1] == m.free[j]
      && RemoveAt([m.size] + m.free, j + 1) == [m.size] + RemoveAt(m.free, j)
      && (forall x | x in RemoveAt(m.free, j) :: x in m.free)
      && Insert([m.size] + RemoveAt(m.free, j), 1, rest) == [m.size] + TakeEntry(m.free, j, m.chunks[i], want)
  {
  }

  /** Flags agree with a row after one block is cut or taken. */
  lemma {:induction false} FlagsSplice(used: seq<bool>, now: seq<bool>, cs: seq<Chunk>, tail: nat, i: nat, mid: seq<Chunk>)
    requires Flags(used, cs, tail) && i < |cs| && |now| == |used| && now[tail]
    requires forall k | 0 <= k < |cs| && k != i && cs[k].start < |used| :: now[cs[k].start] == used[cs[k].start]
    requires forall c | c in mid :: c.start < |now| && now[c.start] == c.used
    ensures Flags(now, Splice(cs, i, i + 1, mid), tail)
  {
    forall c | c in Splice(cs, i, i + 1, mid) ensures c.start < |now| && now[c.start] == c.used {
      SpliceMembers(cs, i, i + 1, mid, c);
      if c in cs[..i] {
        var k :| 0 <= k < i && cs[k] == c;
      } else if c in cs[i + 1..] {
        var k :| 0 <= k < |cs[i + 1..]| && cs[i + 1..][k] == c;
        assert cs[i + 1 + k] == c;
      }
    }
  }

  lemma {:induction false} SplitFlags(used: seq<bool>, m: Pool, i: nat, want: nat)
    requires PoolOk(m) && Flags(used, m.chunks, m.Tail()) && |used| == m.size
    requires i < |m.chunks| && Splits(m.chunks[i], want)
    ensures m.chunks[i].start + want + ITEM < |used|
    ensures Flags(used[m.chunks[i].start + want + ITEM := false][m.chunks[i].start := true],
                  Splice(m.chunks, i, i + 1, Parts(m.chunks[i], want)), m.Tail())
  {
    var cs, c := m.chunks, m.chunks[i];
    TilingSorted(cs, 0, m.Tail());
    assert m.Tail() < |used| && used[m.Tail()];
    hide PoolOk, Flags, Splice;
    var now := used[c.start + want + ITEM := false][c.start := true];
    assert forall k | 0 <= k < |cs| && k != i :: cs[k].end <= c.start || c.end <= cs[k].start;
    FlagsSplice(used, now, cs, m.Tail(), i, Parts(c, want));
  }

  lemma {:induction false} WholeFlags(used: seq<bool>, m: Pool, i: nat, want: nat)
    requires PoolOk(m) && Flags(used, m.chunks, m.Tail()) && i < |m.chunks| && !Splits(m.chunks[i], want)
    ensures m.chunks[i].start < |used|
    ensures
      var cs := Splice(m.chunks, i, i + 1, Parts(m.chunks[i], want));
      Flags(used[m.chunks[i].start := true], cs, m.Tail()) && BlockRing(cs, m.Tail()) == BlockRing(m.chunks, m.Tail())
  {
    var cs, c := m.chunks, m.chunks[i];
    TilingSorted(cs, 0, m.Tail());
    assert c in cs;
    assert m.Tail() < |used| && used[m.Tail()] && c.start < |used|;
    hide PoolOk, Flags, Splice, Offsets;
    assert forall k | 0 <= k < |cs| && k != i :: cs[k].end <= c.start || c.end <= cs[k].start;
    FlagsSplice(used, used[c.start := true], cs, m.Tail(), i, Parts(c, want));
    WholeOffsets(cs, i, want);
  }

  lemma {:induction false} WholeOffsets(cs: seq<Chunk>, i: nat, want: nat)
    requires i < |cs| && !Splits(cs[i], want)
    ensures Offsets(Splice(cs, i, i + 1, Parts(cs[i], want))) == Offsets(cs)
  {
    var o := Offsets(cs);
    OffsetsSplice(cs, i, i + 1, Parts(cs[i], want));
    assert Offsets(Parts(cs[i], want)) == [o[i]];
    hide Offsets, Splice;
    assert o == o[..i] + [o[i]] + o[i + 1..];
  }

  /** The link of a block leads to its end. */
  lemma {:induction false} NextIsEnd(l: Links, cs: seq<Chunk>, tail: nat, i: nat)
    requires Ring(l, BlockRing(cs, tail)) && Tiling(cs, 0, tail) && i < |cs|
    ensures cs[i].start < |l.next| && l.next[cs[i].start] == cs[i].end
    ensures cs[i].start < |l.prev| && l.prev[cs[i].start] == if i > 0 then cs[i - 1].start else tail
  {
    RingNode(l, BlockRing(cs, tail), i);
    TilingCut(cs, 0, tail, i + 1);
    hide Ring;
  }

  lemma {:induction false} FreeIsNotHeader(m: Pool, j: nat)
    requires PoolOk(m) && j < |m.free|
    ensures m.free[j] < m.Tail()
    ensures var i := IndexOf(m.chunks, m.free[j]); i < |m.chunks| && !m.chunks[i].used && m.chunks[i].start == m.free[j]
  {
    ListedBlock(m, m.free[j]);
    TilingSorted(m.chunks, 0, m.Tail());
    hide FreeStarts, FreeBytes;
  }
}

/**
  The memory-heap objects of memheap.c, as a value.

  A pool is a row of blocks with 24-byte headers, closed by a used tail block without
  payload, and a free list in the order in which blocks were freed.
 */
module MemHeapSpec {
  import opened Sequences
  import opened Rings
  import opened SmallHeapSpec
  import opened SmallHeapProofs

  const ITEM: nat := 24          // RT_MEMHEAP_SIZE
  const MIN_ALLOC: nat := 12     // RT_MEMHEAP_MINIALLOC

  /** `chunks` are the blocks before the tail; `free` lists free blocks by offset. */
  datatype Pool = Pool(chunks: seq<Chunk>, size: nat, free: seq<nat>, avail: int) {
    function Tail(): int { size - ITEM }
  }

  function Room(c: Chunk): int { c.Span() - ITEM }

  /** The payload bytes of the free blocks */
  function FreeBytes(cs: seq<Chunk>): int {
    if cs == [] then 0
    else FreeBytes(cs[..|cs| - 1]) + (if cs[|cs| - 1].used then 0 else Room(cs[|cs| - 1]))
  }

  /** The offsets of the free blocks */
  function FreeStarts(cs: seq<Chunk>): multiset<nat> {
    if cs == [] then multiset{}
    else FreeStarts(cs[..|cs| - 1]) + (if cs[|cs| - 1].used then multiset{} else multiset{cs[|cs| - 1].start})
  }

  ghost predicate Roomy(cs: seq<Chunk>) {
    forall c | c in cs :: Room(c) >= 0
  }

  ghost predicate RowOk(cs: seq<Chunk>, end: nat) {
    Tiling(cs, 0, end) && Coalesced(cs) && Roomy(cs) && |cs| > 0
  }

  /**
    The blocks tile the pool up to its tail, free blocks have no free neighbour, the free list
    holds exactly the free blocks, each once, and available_size counts their payload.
   */
  ghost predicate PoolOk(m: Pool) {
    && 2 * ITEM <= m.size < WORD_LIMIT && m.size % 4 == 0
    && RowOk(m.chunks, m.Tail())
    && multiset(m.free) == FreeStarts(m.chunks)
    && m.avail == FreeBytes(m.chunks)
  }

  // ---------------------------------------------------------------------------------
  // Operations
  // ---------------------------------------------------------------------------------

  /** RT_ALIGN_DOWN(size, 4) */
  function AlignDown(size: nat): (n: nat)
    ensures n % 4 == 0 && n <= size < n + 4
  {
    size / 4 * 4
  }

  /** rt_memheap_init */
  function Init(size: nat): Pool
    requires 2 * ITEM <= size
  {
    Pool([Chunk(0, size - ITEM, false)], size, [0], size - 2 * ITEM)
  }

  function Want(size: nat): nat {
    if Align(size) < MIN_ALLOC then MIN_ALLOC else Align(size)
  }

  /** The free size rt_memheap_alloc computes for the block at offset `off` */
  function RoomAt(cs: seq<Chunk>, off: nat): int {
    var i := IndexOf(cs, off);
    if i < |cs| then Room(cs[i]) else 0
  }

  /** The first entry of the free list, from `j` on, that is large enough, or the length */
  function Pick(cs: seq<Chunk>, free: seq<nat>, want: nat, j: nat := 0): (r: nat)
    requires j <= |free|
    ensures j <= r <= |free|
    ensures r < |free| ==> want <= RoomAt(cs, free[r])
    ensures forall k | j <= k < r :: RoomAt(cs, free[k]) < want
    decreases |free| - j
  {
    if j == |free| || want <= RoomAt(cs, free[j]) then j else Pick(cs, free, want, j + 1)
  }

  predicate Splits(c: Chunk, want: nat) {
    Room(c) >= want + ITEM + MIN_ALLOC
  }

  /** The blocks that replace a free block when `want` bytes are taken from it */
  function Parts(c: Chunk, want: nat): seq<Chunk> {
    if Splits(c, want) then
      [Chunk(c.start, c.start + ITEM + want, true), Chunk(c.start + ITEM + want, c.end, false)]
    else [c.(used := true)]
  }

  /** Entry `j` leaves the free list, and the rest of its block, if any, comes first. */
  function TakeEntry(free: seq<nat>, j: nat, c: Chunk, want: nat): seq<nat>
    requires j < |free|
  {
    if Splits(c, want) then [c.start + ITEM + want] + RemoveAt(free, j) else RemoveAt(free, j)
  }

  /** rt_memheap_alloc from block `i`, entry `j` of the free list */
  function TakeAt(m: Pool, i: nat, j: nat, want: nat): Pool
    requires i < |m.chunks| && j < |m.free|
  {
    var c := m.chunks[i];
    m.(chunks := Splice(m.chunks, i, i + 1, Parts(c, want)),
       free := TakeEntry(m.free, j, c, want),
       avail := if Splits(c, want) then m.avail - want - ITEM else m.avail - Room(c))
  }

  /** rt_memheap_alloc; any request below available_size is searched for */
  function Alloc(m: Pool, size: nat): (Pool, Ptr) {
    var want := Want(size);
    if want >= m.avail then (m, Null)
    else
      var j := Pick(m.chunks, m.free, want);
      if j == |m.free| then (m, Null)
      else
        var i := IndexOf(m.chunks, m.free[j]);
        if i == |m.chunks| then (m, Null)
        else (TakeAt(m, i, j, want), At(m.free[j] + ITEM))
  }

  predicate LeftFree(cs: seq<Chunk>, i: nat)
    requires i < |cs|
  {
    i > 0 && !cs[i - 1].used
  }

  predicate RightFree(cs: seq<Chunk>, i: nat)
    requires i < |cs|
  {
    i + 1 < |cs| && !cs[i + 1].used
  }

  /** A free right neighbour leaves the free list; the block joins it unless its left neighbour takes it in. */
  function FreeEntry(free: seq<nat>, cs: seq<Chunk>, i: nat): seq<nat>
    requires i < |cs|
  {
    var rest := if RightFree(cs, i) then Unlink(free, cs[i + 1].start) else free;
    if LeftFree(cs, i) then rest else [cs[i].start] + rest
  }

  /** rt_memheap_free of block `i` */
  function FreeAt(m: Pool, i: nat): Pool
    requires i < |m.chunks|
  {
    var cs := m.chunks;
    m.(chunks := Plug(Unmarked(cs, i), i),
       free := FreeEntry(m.free, cs, i),
       avail := m.avail + Room(cs[i]) + (if LeftFree(cs, i) then ITEM else 0) + (if RightFree(cs, i) then ITEM else 0))
  }

  predicate IsLive(m: Pool, p: Ptr) {
    p.At? && ITEM <= p.offset &&
    var i := IndexOf(m.chunks, p.offset - ITEM);
    i < |m.chunks| && m.chunks[i].used
  }

  /** rt_memheap_free */
  function Free(m: Pool, p: Ptr): Pool
    requires IsLive(m, p)
  {
    FreeAt(m, IndexOf(m.chunks, p.offset - ITEM))
  }

  // ---------------------------------------------------------------------------------
  // Sums over rows
  // ---------------------------------------------------------------------------------

  lemma {:induction false} FreeConcat(a: seq<Chunk>, b: seq<Chunk>)
    ensures FreeBytes(a + b) == FreeBytes(a) + FreeBytes(b)
    ensures FreeStarts(a + b) == FreeStarts(a) + FreeStarts(b)
  {
    if b == [] {
      assert a + b == a;
    } else {
      assert (a + b)[..|a + b| - 1] == a + b[..|b| - 1];
      FreeConcat(a, b[..|b| - 1]);
    }
  }

  lemma {:induction false} FreeOne(c: Chunk)
    ensures FreeBytes([c]) == if c.used then 0 else Room(c)
    ensures FreeStarts([c]) == if c.used then multiset{} else multiset{c.start}
  {
    assert [c][..0] == [];
  }

  lemma {:induction false} FreeTwo(c: Chunk, d: Chunk)
    ensures FreeBytes([c, d]) == FreeBytes([c]) + FreeBytes([d])
    ensures FreeStarts([c, d]) == FreeStarts([c]) + FreeStarts([d])
  {
    FreeConcat([c], [d]);
    assert [c] + [d] == [c, d];
  }

  lemma {:induction false} FreeSplice(cs: seq<Chunk>, lo: nat, hi: nat, mid: seq<Chunk>)
    requires lo <= hi <= |cs|
    ensures FreeBytes(Splice(cs, lo, hi, mid)) == FreeBytes(cs) - FreeBytes(cs[lo..hi]) + FreeBytes(mid)
    ensures FreeStarts(Splice(cs, lo, hi, mid)) == FreeStarts(cs) - FreeStarts(cs[lo..hi]) + FreeStarts(mid)
    ensures FreeStarts(cs[lo..hi]) <= FreeStarts(cs)
  {
    hide FreeStarts, FreeBytes;
    FreeConcat(cs[..lo] + mid, cs[hi..]);
    FreeConcat(cs[..lo], mid);
    assert cs == cs[..lo] + cs[lo..hi] + cs[hi..];
    FreeConcat(cs[..lo] + cs[lo..hi], cs[hi..]);
    FreeConcat(cs[..lo], cs[lo..hi]);
    MultisetSplice(FreeStarts(cs[..lo]), FreeStarts(cs[lo..hi]), FreeStarts(cs[hi..]), FreeStarts(mid));
  }

  lemma {:induction false} MultisetSplice(a: multiset<nat>, b: multiset<nat>, c: multiset<nat>, d: multiset<nat>)
    ensures a + d + c == a + b + c - b + d && b <= a + b + c
  {
  }

  lemma {:induction false} FindStart(cs: seq<Chunk>, off: nat) returns (i: nat)
    requires off in FreeStarts(cs)
    ensures i < |cs| && !cs[i].used && cs[i].start == off
  {
    var n := |cs| - 1;
    if off in FreeStarts(cs[..n]) {
      i := FindStart(cs[..n], off);
    } else {
      i := n;
    }
  }

  /** What is on the free list is a free block. */
  lemma {:induction false} ListedBlock(m: Pool, off: nat)
    requires PoolOk(m) && off in m.free
    ensures var i := IndexOf(m.chunks, off); i < |m.chunks| && !m.chunks[i].used && m.chunks[i].start == off
  {
    assert off in multiset(m.free);
    var i := FindStart(m.chunks, off);
    IndexOfStart(m.chunks, 0, m.Tail(), i);
  }

  /** A free block is on the free list. */
  lemma {:induction false} BlockListed(m: Pool, i: nat)
    requires PoolOk(m) && i < |m.chunks| && !m.chunks[i].used
    ensures m.chunks[i].start in m.free && m.chunks[i].start in FreeStarts(m.chunks)
  {
    hide FreeStarts, FreeBytes, RowOk;
    FreeSplice(m.chunks, i, i + 1, []);
    FreeOne(m.chunks[i]);
    assert m.chunks[i..i + 1] == [m.chunks[i]];
    assert m.chunks[i].start in FreeStarts([m.chunks[i]]);
    assert m.chunks[i].start in multiset(m.free);
  }
}

/** Every operation on a pool keeps it well formed. */
module MemHeapProofs {
  import opened Sequences
  import opened Rings
  import opened SmallHeapSpec
  import opened SmallHeapProofs
  import opened MemHeapSpec

  lemma {:induction false} InitPoolOk(size: nat)
    requires 2 * ITEM <= size < WORD_LIMIT && size % 4 == 0
    ensures PoolOk(MemHeapSpec.Init(size))
  {
    var c := Chunk(0, size - ITEM, false);
    TilingOne(c);
    FreeOne(c);
  }

  lemma {:induction false} RoomySplice(cs: seq<Chunk>, lo: nat, hi: nat, mid: seq<Chunk>)
    requires Roomy(cs) && Roomy(mid) && lo <= hi <= |cs|
    ensures Roomy(Splice(cs, lo, hi, mid))
  {
    forall c | c in Splice(cs, lo, hi, mid) ensures Room(c) >= 0 {
      SpliceMembers(cs, lo, hi, mid, c);
    }
  }

  // ---------------------------------------------------------------------------------
  // rt_memheap_alloc
  // ---------------------------------------------------------------------------------

  lemma {:induction false} WantOk(size: nat)
    ensures MIN_ALLOC <= MemHeapSpec.Want(size) && MemHeapSpec.Want(size) % 4 == 0
  {
  }

  lemma {:induction false} PartsRow(c: Chunk, want: nat)
    requires c.start % 4 == 0 && c.end % 4 == 0 && want % 4 == 0 && want <= Room(c)
    ensures Tiling(Parts(c, want), c.start, c.end) && Coalesced(Parts(c, want)) && Roomy(Parts(c, want))
    ensures Parts(c, want)[0].used && Parts(c, want)[0].start == c.start
  {
    var mid := Parts(c, want);
    if Splits(c, want) {
      TilingTwo(mid[0], mid[1]);
    } else {
      TilingOne(mid[0]);
    }
  }

  lemma {:induction false} TakeRow(m: Pool, i: nat, j: nat, want: nat)
    requires PoolOk(m) && i < |m.chunks| && j < |m.free| && want % 4 == 0
    requires !m.chunks[i].used && want <= Room(m.chunks[i])
    ensures MemHeapSpec.RowOk(TakeAt(m, i, j, want).chunks, m.Tail())
  {
    var c := m.chunks[i];
    TilingCut(m.chunks, 0, m.Tail(), i);
    PartsRow(c, want);
    assert i + 1 < |m.chunks| ==> m.chunks[i].used || m.chunks[i + 1].used;
    hide Tiling, Coalesced, Roomy;
    SpliceTiling(m.chunks, i, i + 1, Parts(c, want), 0, m.Tail());
    SpliceCoalesced(m.chunks, i, i + 1, Parts(c, want));
    RoomySplice(m.chunks, i, i + 1, Parts(c, want));
  }

  lemma {:induction false} RemoveCount(r: seq<nat>, j: nat)
    requires j < |r|
    ensures multiset(RemoveAt(r, j)) == multiset(r) - multiset{r[j]}
  {
    assert r == r[..j] + [r[j]] + r[j + 1..];
  }

  /** The free blocks after `want` bytes are taken from the free block `c` */
  function StartsAfter(starts: multiset<nat>, c: Chunk, want: nat): multiset<nat> {
    starts - multiset{c.start} + (if Splits(c, want) then multiset{c.start + ITEM + want} else multiset{})
  }

  lemma {:induction false} TakeCount(free: seq<nat>, j: nat, c: Chunk, want: nat)
    requires j < |free| && free[j] == c.start
    ensures multiset(TakeEntry(free, j, c, want)) == StartsAfter(multiset(free), c, want)
  {
    RemoveCount(free, j);
    hide RemoveAt;
    var rest, y := RemoveAt(free, j), c.start + ITEM + want;
    assert multiset([y] + rest) == multiset(rest) + multiset{y};
    assert multiset(rest) + multiset{} == multiset(rest);
  }

  lemma {:induction false} TakeStarts(cs: seq<Chunk>, i: nat, want: nat)
    requires i < |cs| && !cs[i].used
    ensures FreeStarts(Splice(cs, i, i + 1, Parts(cs[i], want))) == StartsAfter(FreeStarts(cs), cs[i], want)
    ensures FreeBytes(Splice(cs, i, i + 1, Parts(cs[i], want))) ==
            FreeBytes(cs) - (if Splits(cs[i], want) then want + ITEM else Room(cs[i]))
  {
    hide FreeStarts, FreeBytes, Splice, Parts;
    FreeSplice(cs, i, i + 1, Parts(cs[i], want));
    assert cs[i..i + 1] == [cs[i]];
    FreeOne(cs[i]);
    PartsFree(cs[i], want);
  }

  lemma {:induction false} TakeAccounts(m: Pool, i: nat, j: nat, want: nat)
    requires PoolOk(m) && i < |m.chunks| && j < |m.free| && m.free[j] == m.chunks[i].start && !m.chunks[i].used
    ensures
      var t := TakeAt(m, i, j, want);
      multiset(t.free) == FreeStarts(t.chunks) && t.avail == FreeBytes(t.chunks)
  {
    assert multiset(m.free) == FreeStarts(m.chunks) && m.avail == FreeBytes(m.chunks);
    hide FreeStarts, FreeBytes, Splice, PoolOk, Parts, TakeEntry, StartsAfter;
    TakeStarts(m.chunks, i, want);
    TakeCount(m.free, j, m.chunks[i], want);
  }

  /** What a cut block leaves free */
  lemma {:induction false} PartsFree(c: Chunk, want: nat)
    ensures FreeBytes(Parts(c, want)) == if Splits(c, want) then Room(c) - want - ITEM else 0
    ensures FreeStarts(Parts(c, want)) == if Splits(c, want) then multiset{c.start + ITEM + want} else multiset{}
  {
    hide FreeStarts, FreeBytes;
    var mid := Parts(c, want);
    FreeOne(mid[0]);
    if Splits(c, want) {
      FreeOne(mid[1]);
      FreeTwo(mid[0], mid[1]);
      assert mid == [mid[0], mid[1]];
    } else {
      assert mid == [mid[0]];
    }
  }

  lemma {:induction false} AllocPlace(m: Pool, size: nat) returns (i: nat, j: nat)
    requires PoolOk(m) && Alloc(m, size).1 != Null
    ensures i < |m.chunks| && j < |m.free| && m.free[j] == m.chunks[i].start && !m.chunks[i].used
    ensures MemHeapSpec.Want(size) <= Room(m.chunks[i])
    ensures Alloc(m, size) == (TakeAt(m, i, j, MemHeapSpec.Want(size)), At(m.chunks[i].start + ITEM))
  {
    j := Pick(m.chunks, m.free, MemHeapSpec.Want(size));
    i := IndexOf(m.chunks, m.free[j]);
    hide PoolOk, TakeAt;
    ListedBlock(m, m.free[j]);
  }

  /** rt_memheap_alloc keeps the pool well formed. */
  lemma {:induction false} AllocKeeps(m: Pool, size: nat)
    requires PoolOk(m)
    ensures PoolOk(Alloc(m, size).0)
  {
    if Alloc(m, size).1 != Null {
      hide Pick, IndexOf, Alloc, MemHeapSpec.RowOk, FreeStarts, FreeBytes;
      var i, j := AllocPlace(m, size);
      WantOk(size);
      TakeRow(m, i, j, MemHeapSpec.Want(size));
      TakeAccounts(m, i, j, MemHeapSpec.Want(size));
    }
  }

  // ---------------------------------------------------------------------------------
  // rt_memheap_free
  // ---------------------------------------------------------------------------------

  lemma {:induction false} FreeRow(m: Pool, i: nat)
    requires PoolOk(m) && i < |m.chunks|
    ensures MemHeapSpec.RowOk(MemHeapSpec.FreeAt(m, i).chunks, m.Tail())
  {
    var cs := Unmarked(m.chunks, i);
    UnmarkedTiling(m.chunks, i, m.Tail());
    PlugTiling(cs, i, m.Tail());
    PlugCoalesced(cs, i);
    MergedRoomy(m.chunks, i, m.Tail());
    UpdateIsSplice(m.chunks, i, cs[i]);
    assert m.chunks[i] in m.chunks;
    assert Roomy([cs[i]]);
    RoomySplice(m.chunks, i, i + 1, [cs[i]]);
    hide Tiling, Coalesced, CoalescedBut;
    RoomySplice(cs, Lo(cs, i), Hi(cs, i), [Merged(cs, i)]);
  }

  lemma {:induction false} MergedRoomy(cs: seq<Chunk>, i: nat, end: nat)
    requires Tiling(cs, 0, end) && Roomy(cs) && i < |cs|
    ensures Roomy([Merged(Unmarked(cs, i), i)])
  {
    TilingSorted(cs, 0, end);
    var u := Unmarked(cs, i);
    assert u[Lo(u, i)].start <= cs[i].start && cs[i].end <= u[Hi(u, i) - 1].end;
    assert cs[i] in cs;
  }

  /** The merged stretch: which free blocks it replaces */
  lemma {:induction false} MergedBytes(cs: seq<Chunk>, i: nat, end: nat)
    requires Tiling(cs, 0, end) && i < |cs| && cs[i].used
    ensures
      var u := Unmarked(cs, i);
      var was := u[Lo(u, i)..Hi(u, i)];
      var left, right := LeftFree(cs, i), RightFree(cs, i);
      && FreeBytes([Merged(u, i)]) == FreeBytes(was) + (if left then ITEM else 0) + (if right then ITEM else 0)
      && FreeStarts(was) == (if left then multiset{cs[i - 1].start} else multiset{}) + multiset{cs[i].start}
                            + (if right then multiset{cs[i + 1].start} else multiset{})
      && FreeStarts([Merged(u, i)]) == multiset{if left then cs[i - 1].start else cs[i].start}
  {
    var u := Unmarked(cs, i);
    TilingCut(cs, 0, end, i);
    TilingCut(cs, 0, end, i + 1);
    hide Tiling, FreeBytes, FreeStarts;
    FreeOne(Merged(u, i));
    FreeOne(u[i]);
    var left := if LeftFree(cs, i) then [cs[i - 1]] else [];
    var right := if RightFree(cs, i) then [cs[i + 1]] else [];
    assert u[Lo(u, i)..Hi(u, i)] == left + [u[i]] + right;
    FreeConcat(left + [u[i]], right);
    FreeConcat(left, [u[i]]);
    FreeNone();
    if LeftFree(cs, i) {
      FreeOne(cs[i - 1]);
    }
    if RightFree(cs, i) {
      FreeOne(cs[i + 1]);
    }
  }

  lemma {:induction false} FreeNone()
    ensures FreeBytes([]) == 0 && FreeStarts([]) == multiset{}
  {
  }

  /** The free blocks after block `i` is freed and merged */
  function StartsFreed(starts: multiset<nat>, cs: seq<Chunk>, i: nat): multiset<nat>
    requires i < |cs|
  {
    starts - (if RightFree(cs, i) then multiset{cs[i + 1].start} else multiset{})
    + (if LeftFree(cs, i) then multiset{} else multiset{cs[i].start})
  }

  lemma {:induction false} FreeEntryCount(free: seq<nat>, cs: seq<Chunk>, i: nat)
    requires i < |cs| && (RightFree(cs, i) ==> cs[i + 1].start in free)
    ensures multiset(FreeEntry(free, cs, i)) == StartsFreed(multiset(free), cs, i)
  {
    var rest := if RightFree(cs, i) then Unlink(free, cs[i + 1].start) else free;
    if RightFree(cs, i) {
      UnlinkCount(free, cs[i + 1].start);
    }
    hide Unlink;
    assert multiset([cs[i].start] + rest) == multiset(rest) + multiset{cs[i].start};
  }

  lemma {:induction false} UnmarkedFree(cs: seq<Chunk>, i: nat)
    requires i < |cs| && cs[i].used
    ensures FreeStarts(Unmarked(cs, i)) == FreeStarts(cs) + multiset{cs[i].start}
    ensures FreeBytes(Unmarked(cs, i)) == FreeBytes(cs) + Room(cs[i])
  {
    hide FreeStarts, FreeBytes;
    var d := cs[i].(used := false);
    UpdateIsSplice(cs, i, d);
    FreeSplice(cs, i, i + 1, [d]);
    FreeOne(cs[i]);
    FreeOne(d);
  }

  /** left + block + right, minus itself, plus the merged block */
  lemma {:induction false} MergeAlgebra(a: multiset<nat>, l: multiset<nat>, r: multiset<nat>, s: multiset<nat>, left: bool)
    requires l + r <= a && (left || l == multiset{})
    ensures a + s - (l + s + r) + (if left then l else s) == a - r + (if left then multiset{} else s)
  {
  }

  lemma {:induction false} FreeSums(cs: seq<Chunk>, i: nat, end: nat)
    requires Tiling(cs, 0, end) && i < |cs| && cs[i].used
    requires LeftFree(cs, i) ==> cs[i - 1].start in FreeStarts(cs)
    requires RightFree(cs, i) ==> cs[i + 1].start in FreeStarts(cs)
    ensures FreeStarts(Plug(Unmarked(cs, i), i)) == StartsFreed(FreeStarts(cs), cs, i)
    ensures FreeBytes(Plug(Unmarked(cs, i), i)) ==
            FreeBytes(cs) + Room(cs[i]) + (if LeftFree(cs, i) then ITEM else 0) + (if RightFree(cs, i) then ITEM else 0)
  {
    var u := Unmarked(cs, i);
    NeighboursApart(cs, i, end);
    hide FreeStarts, FreeBytes, Splice, Tiling, Merged;
    FreeSplice(u, Lo(u, i), Hi(u, i), [Merged(u, i)]);
    UnmarkedFree(cs, i);
    MergedBytes(cs, i, end);
    hide Unmarked, Lo, Hi;
    var l := if LeftFree(cs, i) then multiset{cs[i - 1].start} else multiset{};
    var r := if RightFree(cs, i) then multiset{cs[i + 1].start} else multiset{};
    MergeAlgebra(FreeStarts(cs), l, r, multiset{cs[i].start}, LeftFree(cs, i));
  }

  lemma {:induction false} NeighboursApart(cs: seq<Chunk>, i: nat, end: nat)
    requires Tiling(cs, 0, end) && i < |cs|
    ensures i > 0 && i + 1 < |cs| ==> cs[i - 1].start != cs[i + 1].start
  {
    TilingSorted(cs, 0, end);
  }

  /** rt_memheap_free of a used block keeps the pool well formed. */
  lemma {:induction false} FreeAtKeeps(m: Pool, i: nat)
    requires PoolOk(m) && i < |m.chunks| && m.chunks[i].used
    ensures PoolOk(MemHeapSpec.FreeAt(m, i))
  {
    FreeRow(m, i);
    FreeAccounts(m, i);
    hide FreeStarts, FreeBytes, MemHeapSpec.RowOk, Plug, Unmarked, FreeEntry;
  }

  lemma {:induction false} FreeAccounts(m: Pool, i: nat)
    requires PoolOk(m) && i < |m.chunks| && m.chunks[i].used
    ensures
      var t := MemHeapSpec.FreeAt(m, i);
      multiset(t.free) == FreeStarts(t.chunks) && t.avail == FreeBytes(t.chunks)
  {
    var cs := m.chunks;
    assert multiset(m.free) == FreeStarts(cs) && m.avail == FreeBytes(cs) && Tiling(cs, 0, m.Tail());
    hide FreeStarts, FreeBytes, PoolOk, Plug, Unmarked, FreeEntry, StartsFreed, Tiling;
    NeighboursListed(m, i);
    FreeSums(cs, i, m.Tail());
    FreeEntryCount(m.free, cs, i);
  }

  lemma {:induction false} NeighboursListed(m: Pool, i: nat)
    requires PoolOk(m) && i < |m.chunks|
    ensures LeftFree(m.chunks, i) ==> m.chunks[i - 1].start in FreeStarts(m.chunks) && m.chunks[i - 1].start in m.free
    ensures RightFree(m.chunks, i) ==> m.chunks[i + 1].start in FreeStarts(m.chunks) && m.chunks[i + 1].start in m.free
  {
    hide PoolOk, FreeStarts;
    if LeftFree(m.chunks, i) {
      BlockListed(m, i - 1);
    }
    if RightFree(m.chunks, i) {
      BlockListed(m, i + 1);
    }
  }
}

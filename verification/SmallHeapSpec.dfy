/**
  The block layout of the small-memory heap, as a value.

  The heap is a row of chunks that tile the offsets from 0 to `heap_end`.  A chunk is a
  12-byte header followed by its payload.  Every change the allocator makes to this row
  replaces a stretch of neighbouring chunks by other chunks over the same offsets, so one
  lemma about such a splice carries most of the proofs.
 */
module SmallHeapSpec {
  import opened Sequences

  const HEADER: nat := 12       // SIZEOF_STRUCT_MEM
  const MIN_SIZE: nat := 12     // MIN_SIZE_ALIGNED
  const HEAP_MAGIC: nat := 0x1ea0
  const WORD_LIMIT: nat := 0x1_0000_0000

  /** RT_ALIGN(size, 4) on 32-bit unsigned numbers: the addition wraps. */
  function Align(size: nat): nat {
    (size + 3) % WORD_LIMIT / 4 * 4
  }

  datatype Chunk = Chunk(start: nat, end: nat, used: bool) {
    function Span(): int { end - start }
    function Payload(): int { end - start - HEADER }
    function Ptr(): nat { start + HEADER }
  }

  /**
    The allocator's state: the chunks in address order, `mem_size_aligned`, the cursor
    `lfree` as an offset, and the two statistics counters.
   */
  datatype Heap = Heap(chunks: seq<Chunk>, memSize: nat, lfree: nat, usedMem: int, maxMem: int) {
    function End(): nat { memSize + HEADER }
  }

  // ---------------------------------------------------------------------------------
  // Well-formed rows of chunks
  // ---------------------------------------------------------------------------------

  /** `cs` covers the offsets from `lo` to `hi` without gap or overlap, in address order. */
  ghost predicate Tiling(cs: seq<Chunk>, lo: nat, hi: nat) {
    if cs == [] then lo == hi
    else
      && cs[0].start == lo && lo % 4 == 0 && cs[0].end % 4 == 0
      && lo + HEADER <= cs[0].end
      && Tiling(cs[1..], cs[0].end, hi)
  }

  /** No two neighbouring chunks are both free. */
  ghost predicate Coalesced(cs: seq<Chunk>) {
    forall i, j | 0 <= i < j < |cs| && j == i + 1 :: cs[i].used || cs[j].used
  }

  function UsedSpan(cs: seq<Chunk>): int {
    if cs == [] then 0
    else UsedSpan(cs[..|cs| - 1]) + (if cs[|cs| - 1].used then cs[|cs| - 1].Span() else 0)
  }

  /** The live allocations. */
  function Live(cs: seq<Chunk>): set<Chunk> {
    set c | c in cs && c.used
  }

  /** `lfree` rests on a free chunk, or on `heap_end` while something is allocated. */
  ghost predicate CursorOk(cs: seq<Chunk>, lfree: nat, end: nat) {
    if lfree == end then exists c :: c in cs && c.used
    else exists c :: c in cs && !c.used && c.start == lfree
  }

  /** `lfree` is the lowest free chunk: everything below it is in use. */
  ghost predicate CursorLowest(cs: seq<Chunk>, lfree: nat) {
    forall c :: c in cs && c.start < lfree ==> c.used
  }

  /** A heap row: coalesced, and its last chunk can hold a smallest request. */
  ghost predicate RowOk(cs: seq<Chunk>, end: nat) {
    && Tiling(cs, 0, end)
    && Coalesced(cs)
    && |cs| > 0 && cs[|cs| - 1].Payload() >= MIN_SIZE
  }

  ghost predicate HeapOk(h: Heap) {
    && MIN_SIZE <= h.memSize && h.memSize % 4 == 0 && h.memSize + 2 * HEADER <= WORD_LIMIT
    && RowOk(h.chunks, h.End())
    && CursorOk(h.chunks, h.lfree, h.End())
    && h.usedMem == UsedSpan(h.chunks)
    && h.usedMem <= h.maxMem
  }

  // ---------------------------------------------------------------------------------
  // Splices
  // ---------------------------------------------------------------------------------

  lemma {:induction false} UsedSpanConcat(a: seq<Chunk>, b: seq<Chunk>)
    ensures UsedSpan(a + b) == UsedSpan(a) + UsedSpan(b)
  {
    if b == [] {
      assert a + b == a;
    } else {
      assert (a + b)[..|a + b| - 1] == a + b[..|b| - 1];
      UsedSpanConcat(a, b[..|b| - 1]);
    }
  }

  lemma {:induction false} TilingConcat(a: seq<Chunk>, b: seq<Chunk>, lo: nat, mid: nat, hi: nat)
    requires Tiling(a, lo, mid) && Tiling(b, mid, hi)
    ensures Tiling(a + b, lo, hi)
  {
    if a == [] {
      assert a + b == b;
    } else {
      TilingConcat(a[1..], b, a[0].end, mid, hi);
      assert (a + b)[1..] == a[1..] + b;
    }
  }

  /** Cutting a row before its chunk `i` leaves two rows. */
  lemma {:induction false} TilingCut(cs: seq<Chunk>, lo: nat, hi: nat, i: nat)
    requires Tiling(cs, lo, hi) && i <= |cs|
    ensures lo <= hi
    ensures i < |cs| ==> Tiling(cs[..i], lo, cs[i].start) && Tiling(cs[i..], cs[i].start, hi)
    ensures i == |cs| ==> Tiling(cs[..i], lo, hi) && Tiling(cs[i..], hi, hi)
    ensures 0 < i ==> cs[i - 1].end == (if i < |cs| then cs[i].start else hi)
    ensures 0 < |cs| ==> cs[0].start == lo
    ensures i < |cs| ==>
      && lo <= cs[i].start && cs[i].start + HEADER <= cs[i].end <= hi
      && cs[i].start % 4 == 0 && cs[i].end % 4 == 0
  {
    if cs == [] {
    } else if i == 0 {
      TilingCut(cs[1..], cs[0].end, hi, 0);
      assert cs[0..] == cs;
    } else {
      TilingCut(cs[1..], cs[0].end, hi, i - 1);
      assert cs[1..][..i - 1] == cs[..i][1..];
      assert cs[1..][i - 1..] == cs[i..];
    }
  }

  /** All chunks lie inside the row, and earlier ones end before later ones start. */
  lemma {:induction false} TilingSorted(cs: seq<Chunk>, lo: nat, hi: nat)
    requires Tiling(cs, lo, hi)
    ensures forall i | 0 <= i < |cs| :: lo <= cs[i].start && cs[i].start + HEADER <= cs[i].end <= hi
    ensures forall i, j | 0 <= i < j < |cs| :: cs[i].end <= cs[j].start
  {
    forall i | 0 <= i < |cs|
      ensures lo <= cs[i].start && cs[i].start + HEADER <= cs[i].end <= hi
    {
      TilingCut(cs, lo, hi, i);
    }
    forall i, j | 0 <= i < j < |cs| ensures cs[i].end <= cs[j].start {
      TilingCut(cs, lo, hi, j);
      TilingCut(cs[..j], lo, cs[j].start, i);
    }
  }

  /** Replacing neighbours by chunks over the same offsets keeps the row well formed. */
  lemma {:induction false} SpliceTiling(cs: seq<Chunk>, lo: nat, hi: nat, mid: seq<Chunk>, from: nat, to: nat)
    requires Tiling(cs, from, to)
    requires lo < hi <= |cs|
    requires Tiling(mid, cs[lo].start, cs[hi - 1].end)
    ensures Tiling(Splice(cs, lo, hi, mid), from, to)
  {
    TilingCut(cs, from, to, lo);
    TilingCut(cs, from, to, hi);
    TilingConcat(cs[..lo], mid, from, cs[lo].start, cs[hi - 1].end);
    TilingConcat(cs[..lo] + mid, cs[hi..], from, cs[hi - 1].end, to);
  }

  lemma {:induction false} SpliceUsedSpan(cs: seq<Chunk>, lo: nat, hi: nat, mid: seq<Chunk>)
    requires lo <= hi <= |cs|
    ensures UsedSpan(Splice(cs, lo, hi, mid)) == UsedSpan(cs) - UsedSpan(cs[lo..hi]) + UsedSpan(mid)
  {
    UsedSpanConcat(cs[..lo] + mid, cs[hi..]);
    UsedSpanConcat(cs[..lo], mid);
    assert cs == cs[..lo] + cs[lo..hi] + cs[hi..];
    UsedSpanConcat(cs[..lo] + cs[lo..hi], cs[hi..]);
    UsedSpanConcat(cs[..lo], cs[lo..hi]);
  }

  lemma {:induction false} SpliceMembers(cs: seq<Chunk>, lo: nat, hi: nat, mid: seq<Chunk>, c: Chunk)
    requires lo <= hi <= |cs|
    ensures c in Splice(cs, lo, hi, mid) <==> c in cs[..lo] || c in mid || c in cs[hi..]
    ensures c in cs <==> c in cs[..lo] || c in cs[lo..hi] || c in cs[hi..]
  {
    assert cs == cs[..lo] + cs[lo..hi] + cs[hi..];
  }

  // ---------------------------------------------------------------------------------
  // The operations
  // ---------------------------------------------------------------------------------

  datatype Ptr = Null | At(offset: int)

  /** A freshly initialised heap: one free chunk. */
  function Init(memSize: nat): Heap {
    Heap([Chunk(0, memSize + HEADER, false)], memSize, 0, 0, 0)
  }

  /** The payload size that a request is turned into. */
  function Want(size: nat): nat {
    if Align(size) < MIN_SIZE then MIN_SIZE else Align(size)
  }

  /** The search test, with the loop guard `ptr < mem_size_aligned - size`. */
  predicate Fits(c: Chunk, want: nat, memSize: nat) {
    c.start + want < memSize && !c.used && want <= c.Payload()
  }

  /** Index of the first chunk at or after index `i` that fits, or `|cs|`. */
  function Search(cs: seq<Chunk>, i: nat, want: nat, memSize: nat): (r: nat)
    requires i <= |cs|
    ensures i <= r <= |cs|
    ensures r < |cs| ==> Fits(cs[r], want, memSize)
    ensures forall k | i <= k < r :: !Fits(cs[k], want, memSize)
    decreases |cs| - i
  {
    if i == |cs| || Fits(cs[i], want, memSize) then i else Search(cs, i + 1, want, memSize)
  }

  /** Index of the chunk at offset `off`, or `|cs|`. */
  function IndexOf(cs: seq<Chunk>, off: nat, i: nat := 0): (r: nat)
    requires i <= |cs|
    ensures i <= r <= |cs|
    ensures r < |cs| ==> cs[r].start == off
    ensures forall k | i <= k < r :: cs[k].start != off
    decreases |cs| - i
  {
    if i == |cs| || cs[i].start == off then i else IndexOf(cs, off, i + 1)
  }

  /** Offset of the first free chunk at or after index `i`, or `end`. */
  function NextFree(cs: seq<Chunk>, i: nat, end: nat): (r: nat)
    requires i <= |cs|
    ensures r == end || exists k | i <= k < |cs| :: !cs[k].used && cs[k].start == r
    decreases |cs| - i
  {
    if i == |cs| then end
    else if !cs[i].used then cs[i].start
    else NextFree(cs, i + 1, end)
  }

  /** The chunks that replace a free chunk `c` when `want` payload bytes are taken from it. */
  function Carve(c: Chunk, want: nat): (mid: seq<Chunk>)
    requires HEADER + want <= c.Span()
    ensures |mid| > 0 && mid[0].start == c.start && mid[0].used && want <= mid[0].Payload()
  {
    if c.Payload() >= want + HEADER + MIN_SIZE then
      [Chunk(c.start, c.start + HEADER + want, true), Chunk(c.start + HEADER + want, c.end, false)]
    else
      [c.(used := true)]
  }

  function Max(a: int, b: int): int { if a < b then b else a }

  function AllocAt(h: Heap, i: nat, want: nat): Heap
    requires i < |h.chunks| && HEADER + want <= h.chunks[i].Span()
  {
    var mid := Carve(h.chunks[i], want);
    var cs := Splice(h.chunks, i, i + 1, mid);
    var used := h.usedMem + mid[0].Span();
    Heap(cs, h.memSize,
         if h.chunks[i].start == h.lfree then NextFree(cs, i, h.End()) else h.lfree,
         used, Max(h.maxMem, used))
  }

  /** The index rt_malloc allocates at, or `|chunks|` when it returns null. */
  function Choice(h: Heap, size: nat): (i: nat)
    ensures i <= |h.chunks|
    ensures i < |h.chunks| ==> Fits(h.chunks[i], Want(size), h.memSize)
  {
    if size == 0 || Align(size) > h.memSize then |h.chunks|
    else Search(h.chunks, IndexOf(h.chunks, h.lfree), Want(size), h.memSize)
  }

  /** rt_malloc */
  function Malloc(h: Heap, size: nat): (Heap, Ptr) {
    var i := Choice(h, size);
    if i == |h.chunks| then (h, Null)
    else (AllocAt(h, i, Want(size)), At(h.chunks[i].Ptr()))
  }

  /** The chunk with index `i` and its free neighbours are the chunks `Lo` to `Hi - 1`. */
  function Lo(cs: seq<Chunk>, i: nat): (lo: nat)
    requires i < |cs|
    ensures lo <= i
  {
    if i > 0 && !cs[i - 1].used then i - 1 else i
  }

  function Hi(cs: seq<Chunk>, i: nat): (hi: nat)
    requires i < |cs|
    ensures i < hi <= |cs|
  {
    if i + 1 < |cs| && !cs[i + 1].used then i + 2 else i + 1
  }

  function Merged(cs: seq<Chunk>, i: nat): Chunk
    requires i < |cs|
  {
    Chunk(cs[Lo(cs, i)].start, cs[Hi(cs, i) - 1].end, false)
  }

  /** plug_holes: the free chunk `i` swallows its free neighbours. */
  function Plug(cs: seq<Chunk>, i: nat): seq<Chunk>
    requires i < |cs|
  {
    Splice(cs, Lo(cs, i), Hi(cs, i), [Merged(cs, i)])
  }

  /** plug_holes moves the cursor along when the chunk under it is swallowed. */
  function PlugCursor(cs: seq<Chunk>, i: nat, lfree: nat): nat
    requires i < |cs|
  {
    if Merged(cs, i).start <= lfree < Merged(cs, i).end then Merged(cs, i).start else lfree
  }

  /** rt_free of the chunk with index `i` */
  function FreeAt(h: Heap, i: nat): Heap
    requires i < |h.chunks|
  {
    var c := h.chunks[i];
    var cs := h.chunks[i := c.(used := false)];
    h.(chunks := Plug(cs, i),
       lfree := PlugCursor(cs, i, if c.start < h.lfree then c.start else h.lfree),
       usedMem := h.usedMem - c.Span())
  }

  /** The two pieces of a chunk that is cut down to `size` payload bytes */
  function Shrunk(c: Chunk, size: nat): Chunk {
    Chunk(c.start, c.start + HEADER + size, true)
  }

  function Remainder(c: Chunk, size: nat): Chunk {
    Chunk(c.start + HEADER + size, c.end, false)
  }

  /** The row after a used chunk `i` is cut down to `size` payload bytes, before plug_holes. */
  function CutAt(cs: seq<Chunk>, i: nat, size: nat): seq<Chunk>
    requires i < |cs|
  {
    Splice(cs, i, i + 1, [Shrunk(cs[i], size), Remainder(cs[i], size)])
  }

  /** rt_realloc when it shrinks the chunk with index `i` in place */
  function ShrinkAt(h: Heap, i: nat, size: nat): Heap
    requires i < |h.chunks|
  {
    var cs := CutAt(h.chunks, i, size);
    h.(chunks := Plug(cs, i + 1),
       lfree := PlugCursor(cs, i + 1, h.lfree),
       usedMem := h.usedMem - (h.chunks[i].Payload() - size))
  }

  /** The pointer is one that rt_malloc handed out and that is still allocated. */
  predicate IsLive(h: Heap, p: Ptr) {
    p.At? && HEADER <= p.offset &&
    var i := IndexOf(h.chunks, p.offset - HEADER);
    i < |h.chunks| && h.chunks[i].used
  }

  /** rt_free of null, of a pointer outside the heap, which it ignores, or of a live block */
  function Free(h: Heap, p: Ptr): Heap
    requires p == Null || Foreign(h, p) || IsLive(h, p)
  {
    if p == Null || Foreign(h, p) then h
    else
      var i := IndexOf(h.chunks, p.offset - HEADER);
      FreeAt(h, i)
  }

  lemma {:induction false} MallocKeepsLive(h: Heap, size: nat, c: Chunk)
    requires c in h.chunks && c.used
    ensures c in Malloc(h, size).0.chunks
  {
    var i := Choice(h, size);
    if i < |h.chunks| {
      SpliceMembers(h.chunks, i, i + 1, Carve(h.chunks[i], Want(size)), c);
      assert c !in h.chunks[i..i + 1];
    }
  }

  /** The range check of rt_realloc */
  predicate Foreign(h: Heap, p: Ptr) {
    p.At? && (p.offset < 0 || h.End() <= p.offset)
  }

  /** rt_realloc, for null, for pointers outside the heap and for live pointers */
  function Realloc(h: Heap, p: Ptr, newSize: nat): (Heap, Ptr)
    requires p == Null || Foreign(h, p) || IsLive(h, p)
  {
    var size := Align(newSize);
    if size > h.memSize then (h, Null)
    else if p == Null then Malloc(h, size)
    else if Foreign(h, p) then (h, p)
    else
      var i := IndexOf(h.chunks, p.offset - HEADER);
      var c := h.chunks[i];
      if c.Payload() == size then (h, p)
      else if size + HEADER + MIN_SIZE < c.Payload() then (ShrinkAt(h, i, size), p)
      else
        var (h1, q) := Malloc(h, size);
        if q == Null then (h1, Null)
        else
          MallocKeepsLive(h, size, c);
          (FreeAt(h1, IndexOf(h1.chunks, c.start)), q)
  }
}

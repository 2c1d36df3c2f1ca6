/**
  The small-memory heap in place: one block of RAM that holds the block headers between the
  payloads, the `lfree` cursor and the statistics counters.

  `ram` has one cell per byte offset from `heap_ptr`.  A header field is kept whole in the
  first cell of its bytes: `magic` at +0, `used` at +2, `next` at +4, `prev` at +8.
  Each method is proved to do to the row of chunks what the function of the same name in
  SmallHeapSpec does, and to leave every payload byte of every other live block alone.
 */
module SmallHeap {
  import opened Sequences
  import opened SmallHeapSpec
  import opened SmallHeapProofs
  import opened SmallHeapTheorems

  const MAGIC_AT := 0
  const USED_AT := 2
  const NEXT_AT := 4
  const PREV_AT := 8

  /** The header of chunk `i` is in the memory image `m`. */
  ghost predicate EncodedAt(m: seq<int>, cs: seq<Chunk>, i: nat)
    requires i < |cs|
  {
    var c := cs[i];
    && c.start + HEADER <= |m|
    && m[c.start + USED_AT] == (if c.used then 1 else 0)
    && m[c.start + NEXT_AT] == c.end
    && m[c.start + PREV_AT] == (if i == 0 then 0 else cs[i - 1].start)
    && (c.used ==> m[c.start + MAGIC_AT] == HEAP_MAGIC)
  }

  /**
    Memory holds the headers of `cs` and of `heap_end`, which is marked used and is its own
    successor.  The `prev` field of `heap_end` is not maintained.
   */
  ghost predicate Encoded(m: seq<int>, cs: seq<Chunk>, end: nat) {
    && |m| == end + HEADER
    && (forall i | 0 <= i < |cs| :: EncodedAt(m, cs, i))
    && m[end + USED_AT] == 1
    && m[end + NEXT_AT] == end
  }

  /** Outside the offsets `from` to `to` only the `prev` field of the header at `to` differs. */
  ghost predicate OnlyChanged(m: seq<int>, m': seq<int>, from: nat, to: nat) {
    && |m'| == |m|
    && (forall a | 0 <= a < |m| && !(from <= a < to) && a != to + PREV_AT :: m'[a] == m[a])
  }

  /** Every payload byte of the chunks in `live` is the same. */
  ghost predicate PayloadsKept(m: seq<int>, m': seq<int>, live: set<Chunk>) {
    && |m'| == |m|
    && (forall c, a | c in live && c.Ptr() <= a < c.end && a < |m| :: m'[a] == m[a])
  }

  /** Writing the headers of a splice, and the back link of the chunk behind it, is enough. */
  lemma {:induction false} SpliceEncoded(m: seq<int>, m': seq<int>, cs: seq<Chunk>, lo: nat, hi: nat, mid: seq<Chunk>, end: nat)
    requires Tiling(cs, 0, end) && lo < hi <= |cs| && |mid| > 0
    requires Encoded(m, cs, end) && OnlyChanged(m, m', cs[lo].start, cs[hi - 1].end)
    requires forall i | lo <= i < lo + |mid| :: EncodedAt(m', Splice(cs, lo, hi, mid), i)
    requires hi < |cs| ==> cs[hi].start + HEADER <= |m'| && m'[cs[hi].start + PREV_AT] == mid[|mid| - 1].start
    ensures Encoded(m', Splice(cs, lo, hi, mid), end)
  {
    hide Tiling;
    var r := Splice(cs, lo, hi, mid);
    TilingSorted(cs, 0, end);
    TilingCut(cs, 0, end, hi);
    forall i | 0 <= i < |r| ensures EncodedAt(m', r, i) {
      if i < lo {
        assert r[i] == cs[i] && (i > 0 ==> r[i - 1] == cs[i - 1]);
        assert EncodedAt(m, cs, i);
        assert cs[i].end <= cs[lo].start;
      } else if i >= lo + |mid| {
        var j := i - lo - |mid| + hi;
        assert r[i] == cs[j];
        assert r[i - 1] == if j == hi then mid[|mid| - 1] else cs[j - 1];
        assert EncodedAt(m, cs, j);
        assert cs[hi - 1].end <= cs[j].start;
        assert j == hi || cs[hi].end <= cs[j].start;
      }
    }
  }

  /** The frame of a splice keeps the payloads of all live chunks outside it. */
  lemma {:induction false} SplicePayloads(m: seq<int>, m': seq<int>, cs: seq<Chunk>, lo: nat, hi: nat, end: nat, live: set<Chunk>)
    requires Tiling(cs, 0, end) && lo < hi <= |cs| && |m| == end + HEADER
    requires OnlyChanged(m, m', cs[lo].start, cs[hi - 1].end)
    requires forall c :: c in live ==> c in cs && c !in cs[lo..hi]
    ensures PayloadsKept(m, m', live)
  {
    TilingSorted(cs, 0, end);
    TilingCut(cs, 0, end, hi);
    forall c, a | c in live && c.Ptr() <= a < c.end && a < |m| ensures m'[a] == m[a] {
      var k :| 0 <= k < |cs| && cs[k] == c;
      if k < lo {
        assert cs[k].end <= cs[lo].start;
      } else {
        assert hi <= k;
        assert cs[hi - 1].end <= cs[k].start;
        assert k == hi || cs[hi].end <= cs[k].start;
      }
    }
  }

  /** The six fields of a header at `ptr` whose block is cut at `ptr2`, and of the new header */
  ghost predicate HeaderCells(m: seq<int>, c: Chunk, prev: int) {
    && c.start + HEADER <= |m|
    && m[c.start + USED_AT] == (if c.used then 1 else 0)
    && m[c.start + NEXT_AT] == c.end
    && m[c.start + PREV_AT] == prev
    && (c.used ==> m[c.start + MAGIC_AT] == HEAP_MAGIC)
  }

  lemma {:induction false} HeaderOf(m: seq<int>, cs: seq<Chunk>, i: nat, end: nat)
    requires Encoded(m, cs, end) && i < |cs|
    ensures |m| == end + HEADER && HeaderCells(m, cs[i], if i == 0 then 0 else cs[i - 1].start)
  {
    assert EncodedAt(m, cs, i);
  }

  /** Cutting chunk `i` in two: the headers a used front part and a free rear part need */
  lemma {:induction false} CutEncoded(m: seq<int>, m': seq<int>, cs: seq<Chunk>, i: nat, a: Chunk, b: Chunk, end: nat)
    requires Tiling(cs, 0, end) && i < |cs| && Encoded(m, cs, end)
    requires a.start == cs[i].start && b.end == cs[i].end
    requires OnlyChanged(m, m', a.start, b.end)
    requires HeaderCells(m', a, if i == 0 then 0 else cs[i - 1].start) && HeaderCells(m', b, a.start)
    requires b.end != end ==> b.end + HEADER <= |m'| && m'[b.end + PREV_AT] == b.start
    ensures Encoded(m', Splice(cs, i, i + 1, [a, b]), end)
    ensures PayloadsKept(m, m', Live(cs) - {cs[i]})
  {
    assert |m| == end + HEADER;
    hide Tiling, Encoded, OnlyChanged, PayloadsKept;
    var r := Splice(cs, i, i + 1, [a, b]);
    TilingCut(cs, 0, end, i + 1);
    assert r[i] == a && r[i + 1] == b;
    assert i > 0 ==> r[i - 1] == cs[i - 1];
    assert forall k | i <= k < i + 2 :: EncodedAt(m', r, k);
    SpliceEncoded(m, m', cs, i, i + 1, [a, b], end);
    assert cs[i..i + 1] == [cs[i]];
    SplicePayloads(m, m', cs, i, i + 1, end, Live(cs) - {cs[i]});
  }

  /** Replacing chunks `lo` to `hi - 1` by one chunk over the same offsets */
  lemma {:induction false} OneEncoded(m: seq<int>, m': seq<int>, cs: seq<Chunk>, lo: nat, hi: nat, d: Chunk, end: nat, live: set<Chunk>)
    requires Tiling(cs, 0, end) && lo < hi <= |cs| && Encoded(m, cs, end)
    requires d.start == cs[lo].start && d.end == cs[hi - 1].end
    requires OnlyChanged(m, m', d.start, d.end)
    requires HeaderCells(m', d, if lo == 0 then 0 else cs[lo - 1].start)
    requires d.end != end ==> d.end + HEADER <= |m'| && m'[d.end + PREV_AT] == d.start
    requires forall c :: c in live ==> c in cs && c !in cs[lo..hi]
    ensures Encoded(m', Splice(cs, lo, hi, [d]), end)
    ensures PayloadsKept(m, m', live)
  {
    hide Tiling;
    var r := Splice(cs, lo, hi, [d]);
    TilingCut(cs, 0, end, hi);
    TilingSorted(cs, 0, end);
    assert r[lo] == d;
    assert lo > 0 ==> r[lo - 1] == cs[lo - 1];
    SpliceEncoded(m, m', cs, lo, hi, [d], end);
    SplicePayloads(m, m', cs, lo, hi, end, live);
  }

  lemma {:induction false} MarkEncoded(m: seq<int>, cs: seq<Chunk>, i: nat, end: nat)
    requires Tiling(cs, 0, end) && i < |cs| && !cs[i].used && Encoded(m, cs, end)
    ensures cs[i].start + HEADER <= |m|
    ensures
      var m' := m[cs[i].start + USED_AT := 1][cs[i].start + MAGIC_AT := HEAP_MAGIC];
      Encoded(m', Splice(cs, i, i + 1, [cs[i].(used := true)]), end) && PayloadsKept(m, m', Live(cs))
  {
    TilingCut(cs, 0, end, i);
    TilingCut(cs, 0, end, i + 1);
    assert EncodedAt(m, cs, i);
    if i + 1 < |cs| {
      assert EncodedAt(m, cs, i + 1);
    }
    var m' := m[cs[i].start + USED_AT := 1][cs[i].start + MAGIC_AT := HEAP_MAGIC];
    assert cs[i..i + 1] == [cs[i]];
    OneEncoded(m, m', cs, i, i + 1, cs[i].(used := true), end, Live(cs));
  }

  lemma {:induction false} PayloadsKeptTrans(m: seq<int>, m1: seq<int>, m2: seq<int>, live: set<Chunk>)
    requires PayloadsKept(m, m1, live) && PayloadsKept(m1, m2, live)
    ensures PayloadsKept(m, m2, live)
  {
  }

  /** The two merges of plug_holes, forward then backward, are one splice. */
  lemma {:induction false} PlugInTwoSteps(cs: seq<Chunk>, i: nat)
    requires i < |cs| && !cs[i].used
    ensures
      var cs1 := if Hi(cs, i) == i + 2 then Splice(cs, i, i + 2, [Chunk(cs[i].start, cs[i + 1].end, false)]) else cs;
      && i < |cs1| && cs1[i].start == cs[i].start && !cs1[i].used
      && (i > 0 ==> cs1[i - 1] == cs[i - 1])
      && Plug(cs, i) ==
         if Lo(cs, i) < i then Splice(cs1, i - 1, i + 1, [Chunk(cs[i - 1].start, cs1[i].end, false)]) else cs1
  {
    if Lo(cs, i) == i && Hi(cs, i) == i + 1 {
      assert Plug(cs, i) == cs;
    }
  }

  /** What the split branch of rt_malloc finds in the header it cuts */
  lemma {:induction false} SplitReady(h: SmallHeapSpec.Heap, m: seq<int>, i: nat, want: nat)
    requires HeapOk(h) && Encoded(m, h.chunks, h.memSize + HEADER) && i < |h.chunks| && Fits(h.chunks[i], want, h.memSize)
    requires h.chunks[i].Payload() >= want + HEADER + MIN_SIZE
    ensures var c := h.chunks[i];
            && |m| == h.memSize + 2 * HEADER && c.start + HEADER + want + HEADER <= c.end <= h.memSize + HEADER
            && m[c.start + NEXT_AT] == c.end && m[c.start + PREV_AT] == if i == 0 then 0 else h.chunks[i - 1].start
  {
    TilingCut(h.chunks, 0, h.memSize + HEADER, i);
    TilingCut(h.chunks, 0, h.memSize + HEADER, i + 1);
    HeaderOf(m, h.chunks, i, h.memSize + HEADER);
    hide Tiling;
  }

  lemma {:induction false} SplitEncoded(h: SmallHeapSpec.Heap, m: seq<int>, m': seq<int>, i: nat, want: nat)
    requires HeapOk(h) && Encoded(m, h.chunks, h.memSize + HEADER) && i < |h.chunks| && Fits(h.chunks[i], want, h.memSize)
    requires h.chunks[i].Payload() >= want + HEADER + MIN_SIZE
    requires
      var c, cut := h.chunks[i], h.chunks[i].start + HEADER + want;
      && OnlyChanged(m, m', c.start, c.end) && HeaderCells(m', Chunk(c.start, cut, true), if i == 0 then 0 else h.chunks[i - 1].start)
      && HeaderCells(m', Chunk(cut, c.end, false), c.start)
      && (c.end != h.memSize + HEADER ==> c.end + HEADER <= |m'| && m'[c.end + PREV_AT] == cut)
    ensures Encoded(m', Splice(h.chunks, i, i + 1, Carve(h.chunks[i], want)), h.memSize + HEADER)
    ensures PayloadsKept(m, m', Live(h.chunks))
  {
    var c, cut := h.chunks[i], h.chunks[i].start + HEADER + want;
    assert Carve(c, want) == [Chunk(c.start, cut, true), Chunk(cut, c.end, false)];
    assert Live(h.chunks) - {c} == Live(h.chunks);
    assert Tiling(h.chunks, 0, h.memSize + HEADER);
    hide HeapOk, Tiling, Encoded, PayloadsKept, OnlyChanged, HeaderCells, Live, Carve;
    CutEncoded(m, m', h.chunks, i, Chunk(c.start, cut, true), Chunk(cut, c.end, false), h.memSize + HEADER);
  }

  /** What a walk over the headers reads at chunk `i`: its flag, and where the next one starts */
  lemma {:induction false} WalkStep(m: seq<int>, cs: seq<Chunk>, i: nat, end: nat)
    requires Tiling(cs, 0, end) && Encoded(m, cs, end) && i < |cs|
    ensures var c := cs[i];
            && c.start + HEADER <= end < |m| && c.start < end
            && m[c.start + USED_AT] == (if c.used then 1 else 0)
            && m[c.start + NEXT_AT] == c.end == (if i + 1 < |cs| then cs[i + 1].start else end)
  {
    HeaderOf(m, cs, i, end);
    TilingCut(cs, 0, end, i);
    TilingCut(cs, 0, end, i + 1);
    TilingSorted(cs, 0, end);
    hide Tiling, Encoded;
  }

  class Heap {
    const memSize: nat
    const ram: array<int>
    var lfree: nat
    var usedMem: int
    var maxMem: int
    ghost var chunks: seq<Chunk>

    ghost function Abs(): SmallHeapSpec.Heap
      reads this
    {
      SmallHeapSpec.Heap(chunks, memSize, lfree, usedMem, maxMem)
    }

    ghost predicate Valid()
      reads this, ram
    {
      HeapOk(Abs()) && Encoded(ram[..], chunks, memSize + HEADER)
    }

    /** rt_system_heap_init, once the region has been measured */
    constructor (memSize: nat)
      requires MIN_SIZE <= memSize && memSize % 4 == 0 && memSize + 2 * HEADER <= WORD_LIMIT
      ensures Valid() && fresh(ram)
      ensures Abs() == Init(memSize)
    {
      var m := new int[memSize + 2 * HEADER];
      this.memSize := memSize;
      ram := m;
      lfree, usedMem, maxMem := 0, 0, 0;
      chunks := [Chunk(0, memSize + HEADER, false)];
      new;
      ram[MAGIC_AT] := HEAP_MAGIC;
      ram[NEXT_AT] := memSize + HEADER;
      ram[PREV_AT] := 0;
      ram[USED_AT] := 0;
      var end := ram[NEXT_AT];
      ram[end + MAGIC_AT] := HEAP_MAGIC;
      ram[end + USED_AT] := 1;
      ram[end + NEXT_AT] := memSize + HEADER;
      ram[end + PREV_AT] := memSize + HEADER;
      InitOk(memSize);
    }

    /**
      Cut the block at `ptr` at offset `ptr2`: write a free header there and link it in.
      rt_malloc and rt_realloc both do this.
     */
    method LinkRemainder(ptr: nat, ptr2: nat)
      requires ptr + HEADER <= ptr2 && ptr2 + HEADER <= ram.Length && memSize + 2 * HEADER == ram.Length
      requires ptr2 + HEADER <= ram[ptr + NEXT_AT] <= memSize + HEADER
      modifies ram
      ensures ram[ptr2 + USED_AT] == 0 && ram[ptr2 + NEXT_AT] == old(ram[ptr + NEXT_AT]) && ram[ptr2 + PREV_AT] == ptr
      ensures ram[ptr + NEXT_AT] == ptr2
      ensures old(ram[ptr + NEXT_AT]) != memSize + HEADER ==> ram[old(ram[ptr + NEXT_AT]) + PREV_AT] == ptr2
      ensures ram[ptr + MAGIC_AT] == old(ram[ptr + MAGIC_AT]) && ram[ptr + USED_AT] == old(ram[ptr + USED_AT])
      ensures ram[ptr + PREV_AT] == old(ram[ptr + PREV_AT])
      ensures OnlyChanged(old(ram[..]), ram[..], ptr, old(ram[ptr + NEXT_AT]))
      ensures forall a | ptr + HEADER <= a < ptr2 :: ram[a] == old(ram[a])
    {
      ram[ptr2 + USED_AT] := 0;
      var next := ram[ptr + NEXT_AT];
      ram[ptr2 + NEXT_AT] := next;
      ram[ptr2 + PREV_AT] := ptr;
      ram[ptr + NEXT_AT] := ptr2;
      if next != memSize + HEADER {
        ram[next + PREV_AT] := ptr2;
      }
    }

    /** The split branch of rt_malloc */
    method Split(ghost i: nat, ptr: nat, want: nat)
      requires Valid() && want % 4 == 0
      requires i < |chunks| && ptr == chunks[i].start && Fits(chunks[i], want, memSize)
      requires chunks[i].Payload() >= want + HEADER + MIN_SIZE
      modifies ram, `chunks
      ensures chunks == Splice(old(chunks), i, i + 1, Carve(old(chunks[i]), want))
      ensures Encoded(ram[..], chunks, memSize + HEADER)
      ensures PayloadsKept(old(ram[..]), ram[..], Live(old(chunks)))
    {
      hide HeapOk, Encoded, Tiling, PayloadsKept, HeaderCells, OnlyChanged, Splice, Fits, Live;
      ghost var m := ram[..];
      SplitReady(Abs(), m, i, want);
      CutUsed(ptr, ptr + HEADER + want);
      SplitEncoded(Abs(), m, ram[..], i, want);
      chunks := Splice(chunks, i, i + 1, Carve(chunks[i], want));
    }

    /** The cut with a used front part: six header fields and the back link */
    method CutUsed(ptr: nat, ptr2: nat)
      requires ptr + HEADER <= ptr2 && ptr2 + HEADER <= ram.Length && memSize + 2 * HEADER == ram.Length
      requires ptr2 + HEADER <= ram[ptr + NEXT_AT] <= memSize + HEADER
      modifies ram
      ensures HeaderCells(ram[..], Chunk(ptr, ptr2, true), old(ram[ptr + PREV_AT]))
      ensures HeaderCells(ram[..], Chunk(ptr2, old(ram[ptr + NEXT_AT]), false), ptr)
      ensures OnlyChanged(old(ram[..]), ram[..], ptr, old(ram[ptr + NEXT_AT]))
      ensures old(ram[ptr + NEXT_AT]) != memSize + HEADER ==> ram[old(ram[ptr + NEXT_AT]) + PREV_AT] == ptr2
    {
      LinkRemainder(ptr, ptr2);
      ram[ptr + USED_AT] := 1;
      ram[ptr + MAGIC_AT] := HEAP_MAGIC;
    }

    /** The branch of rt_malloc that takes a block whole */
    method TakeWhole(ghost i: nat, ptr: nat, ghost want: nat)
      requires Valid() && i < |chunks| && ptr == chunks[i].start && Fits(chunks[i], want, memSize)
      requires chunks[i].Payload() < want + HEADER + MIN_SIZE
      modifies ram, `chunks
      ensures chunks == Splice(old(chunks), i, i + 1, Carve(old(chunks[i]), want))
      ensures Encoded(ram[..], chunks, memSize + HEADER)
      ensures PayloadsKept(old(ram[..]), ram[..], Live(old(chunks)))
    {
      ghost var m := ram[..];
      TilingCut(chunks, 0, memSize + HEADER, i);
      MarkEncoded(m, chunks, i, memSize + HEADER);
      ram[ptr + USED_AT] := 1;
      ram[ptr + MAGIC_AT] := HEAP_MAGIC;
      assert ram[..] == m[ptr + USED_AT := 1][ptr + MAGIC_AT := HEAP_MAGIC];
      chunks := Splice(chunks, i, i + 1, [chunks[i].(used := true)]);
    }

    /** The loop of rt_malloc that moves the cursor on to the next free block */
    method AdvanceCursor(ghost i: nat)
      requires Encoded(ram[..], chunks, memSize + HEADER) && Tiling(chunks, 0, memSize + HEADER)
      requires i < |chunks| && lfree == chunks[i].start
      modifies `lfree
      ensures lfree == NextFree(chunks, i, memSize + HEADER)
    {
      ghost var k, end, m := i, memSize + HEADER, ram[..];
      assert |m| == end + HEADER;
      hide Tiling, Encoded;
      WalkStep(m, chunks, i, end);
      while ram[lfree + USED_AT] != 0 && lfree != memSize + HEADER
        invariant i <= k <= |chunks| && lfree <= end
        invariant lfree == (if k < |chunks| then chunks[k].start else end)
        invariant NextFree(chunks, i, end) == NextFree(chunks, k, end)
        invariant k < |chunks| ==> ram[lfree + USED_AT] == (if chunks[k].used then 1 else 0) && lfree < end
        decreases |chunks| - k
      {
        WalkStep(m, chunks, k, end);
        lfree := ram[lfree + NEXT_AT];
        k := k + 1;
        if k < |chunks| {
          WalkStep(m, chunks, k, end);
        }
      }
    }

    /** Take `want` payload bytes from the block at `ptr`; the result is the span taken. */
    method Occupy(ghost i: nat, ptr: nat, want: nat) returns (span: int)
      requires Valid() && want % 4 == 0
      requires i < |chunks| && ptr == chunks[i].start && Fits(chunks[i], want, memSize)
      modifies ram, `chunks
      ensures chunks == Splice(old(chunks), i, i + 1, Carve(old(chunks[i]), want))
      ensures span == Carve(old(chunks[i]), want)[0].Span()
      ensures Encoded(ram[..], chunks, memSize + HEADER)
      ensures PayloadsKept(old(ram[..]), ram[..], Live(old(chunks)))
    {
      assert EncodedAt(ram[..], chunks, i);
      if ram[ptr + NEXT_AT] - (ptr + HEADER) >= want + HEADER + MIN_SIZE {
        Split(i, ptr, want);
        span := want + HEADER;
      } else {
        span := ram[ptr + NEXT_AT] - ptr;
        TakeWhole(i, ptr, want);
      }
    }

    /** rt_malloc once a block has been found */
    method Take(ghost i: nat, ptr: nat, want: nat)
      requires Valid() && want % 4 == 0
      requires i < |chunks| && ptr == chunks[i].start && Fits(chunks[i], want, memSize)
      modifies this, ram
      ensures Valid() && Abs() == AllocAt(old(Abs()), i, want)
      ensures PayloadsKept(old(ram[..]), ram[..], Live(old(chunks)))
    {
      hide Tiling;
      hide Encoded;
      hide UsedSpan;
      hide PayloadsKept;
      ghost var h := Abs();
      var span := Occupy(i, ptr, want);
      usedMem := usedMem + span;
      if maxMem < usedMem {
        maxMem := usedMem;
      }
      AllocKeepsHeap(h, i, want);
      assert chunks[i].start == ptr;
      if ptr == lfree {
        AdvanceCursor(i);
      }
    }

    /** rt_malloc */
    method Malloc(size: nat) returns (p: Ptr)
      requires Valid()
      modifies this, ram
      ensures Valid()
      ensures Abs() == SmallHeapSpec.Malloc(old(Abs()), size).0
      ensures p == SmallHeapSpec.Malloc(old(Abs()), size).1
      ensures PayloadsKept(old(ram[..]), ram[..], Live(old(chunks)))
    {
      if size == 0 {
        return Null;
      }
      var want := Align(size);
      if want > memSize {
        return Null;
      }
      if want < MIN_SIZE {
        want := MIN_SIZE;
      }
      var found, ptr, i := Find(want);
      assert i == Choice(Abs(), size) && want == Want(size);
      if !found {
        return Null;
      }
      p := At(ptr + HEADER);
      Take(i, ptr, want);
    }

    /** One merge of plug_holes: the free block at `ptr` swallows its free successor. */
    method Absorb(ghost i: nat, ptr: nat)
      requires Encoded(ram[..], chunks, memSize + HEADER) && Tiling(chunks, 0, memSize + HEADER)
      requires i + 1 < |chunks| && ptr == chunks[i].start && !chunks[i].used && !chunks[i + 1].used
      modifies ram, `chunks
      ensures chunks == Splice(old(chunks), i, i + 2, [Chunk(ptr, old(chunks)[i + 1].end, false)])
      ensures Encoded(ram[..], chunks, memSize + HEADER) && Tiling(chunks, 0, memSize + HEADER)
      ensures PayloadsKept(old(ram[..]), ram[..], Live(old(chunks)))
    {
      hide Encoded, Tiling, PayloadsKept;
      ghost var m, end := ram[..], memSize + HEADER;
      ghost var d := Chunk(ptr, chunks[i + 1].end, false);
      TilingCut(chunks, 0, end, i);
      TilingCut(chunks, 0, end, i + 1);
      HeaderOf(m, chunks, i, end);
      HeaderOf(m, chunks, i + 1, end);
      var next := ram[ram[ptr + NEXT_AT] + NEXT_AT];
      ram[ptr + NEXT_AT] := next;
      ram[next + PREV_AT] := ptr;
      assert ram[..] == m[ptr + NEXT_AT := next][next + PREV_AT := ptr];
      assert chunks[i..i + 2] == [chunks[i], chunks[i + 1]];
      OneEncoded(m, ram[..], chunks, i, i + 2, d, end, Live(chunks));
      TilingOne(d);
      SpliceTiling(chunks, i, i + 2, [d], 0, end);
      chunks := Splice(chunks, i, i + 2, [d]);
    }

    /** plug_holes */
    method PlugHoles(ghost i: nat, mem: nat)
      requires Encoded(ram[..], chunks, memSize + HEADER) && Tiling(chunks, 0, memSize + HEADER)
      requires i < |chunks| && mem == chunks[i].start && !chunks[i].used
      requires lfree == memSize + HEADER || exists c :: c in chunks && c.start == lfree
      modifies ram, `chunks, `lfree
      ensures chunks == Plug(old(chunks), i) && lfree == PlugCursor(old(chunks), i, old(lfree))
      ensures Encoded(ram[..], chunks, memSize + HEADER)
      ensures PayloadsKept(old(ram[..]), ram[..], Live(old(chunks)))
    {
      hide Encoded, Tiling, Plug, PayloadsKept;
      ghost var cs := chunks;
      PlugInTwoSteps(cs, i);
      PlugCursorInTwoSteps(cs, i, lfree, memSize + HEADER);
      PlugForward(i, mem);
      ghost var m1 := ram[..];
      PlugBackward(i, mem);
      PayloadsKeptTrans(old(ram[..]), m1, ram[..], Live(cs));
    }

    /** The backward half of plug_holes */
    method PlugBackward(ghost i: nat, mem: nat)
      requires Encoded(ram[..], chunks, memSize + HEADER) && Tiling(chunks, 0, memSize + HEADER)
      requires i < |chunks| && mem == chunks[i].start && !chunks[i].used
      modifies ram, `chunks, `lfree
      ensures
        var cs := old(chunks);
        var merge := i > 0 && !cs[i - 1].used;
        && chunks == (if merge then Splice(cs, i - 1, i + 1, [Chunk(cs[i - 1].start, cs[i].end, false)]) else cs)
        && lfree == (if merge && old(lfree) == mem then cs[i - 1].start else old(lfree))
      ensures Encoded(ram[..], chunks, memSize + HEADER)
      ensures PayloadsKept(old(ram[..]), ram[..], Live(old(chunks)))
    {
      hide Encoded, Tiling;
      ghost var end := memSize + HEADER;
      HeaderOf(ram[..], chunks, i, end);
      TilingCut(chunks, 0, end, i);
      var pmem := ram[mem + PREV_AT];
      if i > 0 {
        HeaderOf(ram[..], chunks, i - 1, end);
        TilingCut(chunks, 0, end, i - 1);
      }
      if pmem != mem && ram[pmem + USED_AT] == 0 {
        if lfree == mem {
          lfree := pmem;
        }
        Absorb(i - 1, pmem);
      }
    }

    /** The forward half of plug_holes */
    method PlugForward(ghost i: nat, mem: nat)
      requires Encoded(ram[..], chunks, memSize + HEADER) && Tiling(chunks, 0, memSize + HEADER)
      requires i < |chunks| && mem == chunks[i].start && !chunks[i].used
      modifies ram, `chunks, `lfree
      ensures
        var cs := old(chunks);
        var merge := i + 1 < |cs| && !cs[i + 1].used;
        && chunks == (if merge then Splice(cs, i, i + 2, [Chunk(mem, cs[i + 1].end, false)]) else cs)
        && lfree == (if merge && old(lfree) == cs[i + 1].start then mem else old(lfree))
        && Live(chunks) == Live(cs)
      ensures Encoded(ram[..], chunks, memSize + HEADER) && Tiling(chunks, 0, memSize + HEADER)
      ensures PayloadsKept(old(ram[..]), ram[..], Live(old(chunks)))
    {
      hide Encoded, Tiling;
      ghost var cs, end := chunks, memSize + HEADER;
      HeaderOf(ram[..], chunks, i, end);
      TilingCut(chunks, 0, end, i);
      TilingCut(chunks, 0, end, i + 1);
      var nmem := ram[mem + NEXT_AT];
      if i + 1 < |chunks| {
        HeaderOf(ram[..], chunks, i + 1, end);
      } else {
        EndMarked(ram[..], chunks, end);
      }
      if mem != nmem && ram[nmem + USED_AT] == 0 && nmem != memSize + HEADER {
        if lfree == nmem {
          lfree := mem;
        }
        MergeLive(cs, i);
        Absorb(i, mem);
      }
    }

    /** rt_free of the live block with header `mem` */
    method Release(ghost i: nat, mem: nat)
      requires Valid() && i < |chunks| && mem == chunks[i].start && chunks[i].used
      modifies this, ram
      ensures Valid() && Abs() == FreeAt(old(Abs()), i)
      ensures PayloadsKept(old(ram[..]), ram[..], Live(old(chunks)) - {old(chunks)[i]})
    {
      hide Encoded, Tiling, Plug, PlugCursor, PayloadsKept, UsedSpan, Coalesced, HeapOk, Live;
      ghost var h, m, end := Abs(), ram[..], memSize + HEADER;
      ReleaseReady(h, m, i);
      assert ram[mem + MAGIC_AT] == HEAP_MAGIC;
      ram[mem + USED_AT] := 0;
      ram[mem + MAGIC_AT] := 0;
      assert ram[..] == m[mem + USED_AT := 0][mem + MAGIC_AT := 0];
      ghost var m1 := ram[..];
      chunks := Unmarked(chunks, i);
      UnmarkedLive(h.chunks, i, end);
      CursorOnChunk(h, i, mem);
      if mem < lfree {
        lfree := mem;
      }
      usedMem := usedMem - (ram[mem + NEXT_AT] - mem);
      PlugHoles(i, mem);
      PayloadsKeptTrans(m, m1, ram[..], Live(h.chunks) - {h.chunks[i]});
      FreeAtKeepsHeap(h, i);
    }

    /** rt_free, for null and for live pointers */
    method Free(p: Ptr)
      requires Valid() && (p == Null || Foreign(Abs(), p) || IsLive(Abs(), p))
      modifies this, ram
      ensures Valid() && Abs() == SmallHeapSpec.Free(old(Abs()), p)
      ensures PayloadsKept(old(ram[..]), ram[..], Live(chunks))
      ensures p != Null && !Foreign(old(Abs()), p) ==>
        var h := old(Abs());
        var c := h.chunks[IndexOf(h.chunks, p.offset - HEADER)];
        Live(chunks) == Live(h.chunks) - {c} && Abs() == FreeAt(h, IndexOf(h.chunks, p.offset - HEADER))
    {
      hide Encoded, FreeAt;
      if p == Null || p.offset < 0 || p.offset >= memSize + HEADER {
        return;
      }
      ghost var h, i := Abs(), IndexOf(chunks, p.offset - HEADER);
      Release(i, p.offset - HEADER);
      FreeAtKeepsHeap(h, i);
    }

    /** The part of rt_realloc that cuts a block down in place */
    method Shrink(ghost i: nat, ptr: nat, size: nat)
      requires Valid() && Cuttable(chunks, i, size) && ptr == chunks[i].start
      modifies this, ram
      ensures Valid() && Abs() == ShrinkAt(old(Abs()), i, size)
      ensures PayloadsKept(old(ram[..]), ram[..], Live(chunks))
    {
      hide Encoded, Tiling, Plug, PlugCursor, PayloadsKept, UsedSpan, Coalesced, CutAt;
      ghost var h, m, end := Abs(), ram[..], memSize + HEADER;
      TilingCut(chunks, 0, end, i);
      HeaderOf(m, chunks, i, end);
      usedMem := usedMem - (ram[ptr + NEXT_AT] - ptr - HEADER - size);
      WriteCut(i, ptr, size);
      ghost var m1 := ram[..];
      CutTiling(h.chunks, i, size, end);
      CutLive(h.chunks, i, size, end);
      CursorAfterCut(h, i, size);
      PlugHoles(i + 1, ptr + HEADER + size);
      PayloadsKeptTrans(m, m1, ram[..], Live(h.chunks) - {h.chunks[i]} + {Shrunk(h.chunks[i], size)});
      ShrinkAtKeepsHeap(h, i, size);
    }

    method WriteCut(ghost i: nat, ptr: nat, size: nat)
      requires Encoded(ram[..], chunks, memSize + HEADER) && Tiling(chunks, 0, memSize + HEADER)
      requires Cuttable(chunks, i, size) && ptr == chunks[i].start
      modifies ram, `chunks
      ensures chunks == CutAt(old(chunks), i, size)
      ensures |chunks| == |old(chunks)| + 1 && chunks[i + 1] == Remainder(old(chunks)[i], size)
      ensures Encoded(ram[..], chunks, memSize + HEADER)
      ensures PayloadsKept(old(ram[..]), ram[..], Live(old(chunks)) - {old(chunks)[i]} + {Shrunk(old(chunks)[i], size)})
    {
      hide Encoded, Tiling;
      ghost var m, end, c := ram[..], memSize + HEADER, chunks[i];
      TilingCut(chunks, 0, end, i);
      HeaderOf(m, chunks, i, end);
      var ptr2 := ptr + HEADER + size;
      LinkRemainder(ptr, ptr2);
      ghost var m1 := ram[..];
      ram[ptr2 + MAGIC_AT] := HEAP_MAGIC;
      assert ram[..] == m1[ptr2 + MAGIC_AT := HEAP_MAGIC];
      assert OnlyChanged(m, ram[..], c.start, c.end);
      assert HeaderCells(ram[..], Shrunk(c, size), if i == 0 then 0 else chunks[i - 1].start);
      assert HeaderCells(ram[..], Remainder(c, size), ptr);
      CutEncoded(m, ram[..], chunks, i, Shrunk(c, size), Remainder(c, size), end);
      chunks := CutAt(chunks, i, size);
    }

    /** rt_memcpy between two blocks */
    method Copy(dst: nat, src: nat, n: nat)
      requires dst + n <= ram.Length && src + n <= ram.Length
      requires dst + n <= src || src + n <= dst
      modifies ram
      ensures Prefix(old(ram[..]), src, ram[..], dst, n)
      ensures forall a | 0 <= a < ram.Length && !(dst <= a < dst + n) :: ram[a] == old(ram[a])
    {
      var k := 0;
      while k < n
        invariant k <= n
        invariant forall a | dst <= a < dst + k :: ram[a] == old(ram[a - dst + src])
        invariant forall a | 0 <= a < ram.Length && !(dst <= a < dst + k) :: ram[a] == old(ram[a])
      {
        ram[dst + k] := ram[src + k];
        k := k + 1;
      }
    }

    /** A caller's store into its own block: the allocator's structure is not affected. */
    method Store(p: nat, k: nat, v: int, ghost c: Chunk)
      requires Valid() && c in Live(chunks) && p == c.Ptr() && k < c.Payload()
      modifies ram
      ensures Valid() && p + k < ram.Length
      ensures ram[..] == old(ram[..])[p + k := v]
      ensures PayloadsKept(old(ram[..]), ram[..], Live(chunks) - {c})
    {
      LiveInRam(Abs(), ram[..], c);
      ghost var m := ram[..];
      ram[p + k] := v;
      PayloadWrite(m, ram[..], Abs(), c);
    }

    /** The part of rt_realloc that moves a block: allocate, copy, free. */
    method Move(ghost c: Chunk, p: Ptr, payload: nat, size: nat) returns (q: Ptr)
      requires Valid() && c in Live(chunks) && p == At(c.Ptr()) && payload == c.Payload()
      requires size % 4 == 0 && size < WORD_LIMIT
      modifies this, ram
      ensures Valid()
      ensures q == SmallHeapSpec.Malloc(old(Abs()), size).1
      ensures
        var h1 := SmallHeapSpec.Malloc(old(Abs()), size).0;
        if q == Null then Abs() == h1
        else IndexOf(h1.chunks, c.start) < |h1.chunks| && Abs() == FreeAt(h1, IndexOf(h1.chunks, c.start))
      ensures q != Null ==> Prefix(old(ram[..]), p.offset, ram[..], q.offset, if payload < size then payload else size)
      ensures PayloadsKept(old(ram[..]), ram[..], Live(old(chunks)) - {c})
    {
      assert c in chunks && c.used;
      hide Encoded, HeapOk, SmallHeapSpec.Malloc, FreeAt, Live, PayloadsKept, IsLive;
      ghost var h, m := Abs(), ram[..];
      LiveInRam(h, m, c);
      q := Malloc(size);
      ghost var h1, m1 := Abs(), ram[..];
      if q == Null {
        PayloadsShrink(m, m1, Live(h.chunks), c);
      } else {
        ghost var d := MoveTarget(h, c, size, m1);
        var n := if payload < size then payload else size;
        CopyAndFree(c, d, p, q, n);
        MoveKept(Live(h.chunks), c, d, m, m1, ram[..], n);
      }
    }

    /** Copy `n` bytes of block `c` to block `d` and free `c`. */
    method CopyAndFree(ghost c: Chunk, ghost d: Chunk, p: Ptr, q: Ptr, n: nat)
      requires Valid() && c in Live(chunks) && d in Live(chunks) && c != d
      requires p == At(c.Ptr()) && q == At(d.Ptr()) && n <= c.Payload() && n <= d.Payload()
      modifies this, ram
      ensures Valid()
      ensures
        var h := old(Abs());
        IndexOf(h.chunks, c.start) < |h.chunks| && Abs() == FreeAt(h, IndexOf(h.chunks, c.start))
      ensures Prefix(old(ram[..]), p.offset, ram[..], q.offset, n)
      ensures PayloadsKept(old(ram[..]), ram[..], Live(old(chunks)) - {c} - {d})
    {
      ghost var h, m := Abs(), ram[..];
      hide Encoded, HeapOk, FreeAt, Live, PayloadsKept, IsLive, Prefix, Foreign;
      CopyReady(h, m, c, d);
      CopyBlock(c, d, p.offset, q.offset, n);
      ghost var m2 := ram[..];
      FreeLive(c, p);
      CopyKept(Live(h.chunks), c, d, m, m2, ram[..], n);
    }

    /** rt_free, seen from the chunk that is freed */
    method FreeLive(ghost c: Chunk, p: Ptr)
      requires Valid() && c in Live(chunks) && p == At(c.Ptr())
      modifies this, ram
      ensures Valid()
      ensures
        var h := old(Abs());
        IndexOf(h.chunks, c.start) < |h.chunks| && Abs() == FreeAt(h, IndexOf(h.chunks, c.start))
      ensures PayloadsKept(old(ram[..]), ram[..], Live(old(chunks)) - {c})
    {
      hide Encoded, HeapOk, FreeAt, Live, PayloadsKept, IsLive, Foreign;
      LiveIndex(Abs(), c);
      Free(p);
    }

    /** The first `n` bytes of one live block go to another. */
    method CopyBlock(ghost c: Chunk, ghost d: Chunk, p: int, q: int, n: nat)
      requires Valid() && c in chunks && d in chunks && p == c.Ptr() && q == d.Ptr()
      requires n <= c.Payload() && n <= d.Payload() && (c.end <= d.start || d.end <= c.start)
      requires c.Ptr() <= c.end <= ram.Length && d.Ptr() <= d.end <= ram.Length
      modifies ram
      ensures Valid() && PayloadsKept(old(ram[..]), ram[..], Live(chunks) - {d})
      ensures Prefix(old(ram[..]), p, ram[..], q, n)
    {
      hide Encoded, HeapOk, Live, PayloadsKept, Prefix;
      ghost var m := ram[..];
      Copy(q, p, n);
      PayloadWrite(m, ram[..], Abs(), d);
    }

    /** rt_realloc */
    method Realloc(p: Ptr, newSize: nat) returns (q: Ptr)
      requires Valid() && newSize < WORD_LIMIT
      requires p == Null || Foreign(Abs(), p) || IsLive(Abs(), p)
      modifies this, ram
      ensures Valid()
      ensures Abs() == SmallHeapSpec.Realloc(old(Abs()), p, newSize).0
      ensures q == SmallHeapSpec.Realloc(old(Abs()), p, newSize).1
      ensures PayloadsKept(old(ram[..]), ram[..], set c | c in Live(old(chunks)) && p != At(c.Ptr()))
      ensures forall c :: c in Live(old(chunks)) && p == At(c.Ptr()) && q != Null ==>
                Prefix(old(ram[..]), p.offset, ram[..], q.offset,
                       if c.Payload() < Align(newSize) then c.Payload() else Align(newSize))
    {
      hide Encoded, HeapOk, SmallHeapSpec.Malloc, FreeAt, ShrinkAt;
      var size := Align(newSize);
      if size > memSize {
        return Null;
      }
      if p == Null {
        q := Malloc(size);
        return;
      }
      if p.offset < 0 || memSize + HEADER <= p.offset {
        ForeignNotLive(Abs(), p);
        return p;
      }
      q := Resize(p, size);
    }

    /** rt_realloc of a live block */
    method Resize(p: Ptr, size: nat) returns (q: Ptr)
      requires Valid() && size % 4 == 0 && size <= memSize && IsLive(Abs(), p) && !Foreign(Abs(), p)
      modifies this, ram
      ensures Valid()
      ensures
        var h := old(Abs());
        var i := IndexOf(h.chunks, p.offset - HEADER);
        var c := h.chunks[i];
        && (forall d :: d in Live(h.chunks) && p == At(d.Ptr()) ==> d == c)
        && PayloadsKept(old(ram[..]), ram[..], Live(h.chunks) - {c})
        && (q != Null ==> Prefix(old(ram[..]), p.offset, ram[..], q.offset, if c.Payload() < size then c.Payload() else size))
        && (if c.Payload() == size then Abs() == h && q == p
            else if size + HEADER + MIN_SIZE < c.Payload() then Abs() == ShrinkAt(h, i, size) && q == p
            else
              var h1 := SmallHeapSpec.Malloc(h, size).0;
              && q == SmallHeapSpec.Malloc(h, size).1
              && (if q == Null then Abs() == h1
                  else IndexOf(h1.chunks, c.start) < |h1.chunks| && Abs() == FreeAt(h1, IndexOf(h1.chunks, c.start))))
    {
      assert memSize < WORD_LIMIT;
      hide Encoded, HeapOk, SmallHeapSpec.Malloc, FreeAt, ShrinkAt, PayloadsKept;
      ghost var h, m := Abs(), ram[..];
      ghost var i := IndexOf(chunks, p.offset - HEADER);
      ghost var c := chunks[i];
      OnlyAt(h, i);
      LiveInRam(h, m, c);
      var ptr := p.offset - HEADER;
      HeaderOf(m, chunks, i, memSize + HEADER);
      var payload := ram[ptr + NEXT_AT] - ptr - HEADER;
      if payload == size {
        KeptSame(m, Live(chunks) - {c});
        return p;
      }
      if size + HEADER + MIN_SIZE < payload {
        Shrink(i, ptr, size);
        ShrinkAtKeepsHeap(h, i, size);
        ShrinkKept(m, ram[..], Live(h.chunks), Live(chunks), c, size);
        return p;
      }
      q := Move(c, p, payload, size);
    }

    /** The search loop of rt_malloc */
    method Find(want: nat) returns (found: bool, ptr: nat, ghost i: nat)
      requires Valid() && want <= memSize
      ensures i == Search(chunks, IndexOf(chunks, lfree), want, memSize)
      ensures found <==> Search(chunks, IndexOf(chunks, lfree), want, memSize) < |chunks|
      ensures found ==> ptr == chunks[Search(chunks, IndexOf(chunks, lfree), want, memSize)].start
    {
      ghost var first, end, m := IndexOf(chunks, lfree), memSize + HEADER, ram[..];
      assert Tiling(chunks, 0, end);
      hide HeapOk, Tiling, Encoded;
      i := first;
      CursorAtEnd(Abs());
      ptr := lfree;
      while ptr < memSize - want
        invariant first <= i <= |chunks|
        invariant ptr == (if i < |chunks| then chunks[i].start else end)
        invariant Search(chunks, first, want, memSize) == Search(chunks, i, want, memSize)
        decreases |chunks| - i
      {
        WalkStep(m, chunks, i, end);
        if ram[ptr + USED_AT] == 0 && ram[ptr + NEXT_AT] - (ptr + HEADER) >= want {
          return true, ptr, i;
        }
        ptr := ram[ptr + NEXT_AT];
        i := i + 1;
      }
      NoFitBeyond(chunks, i, want, memSize);
      return false, ptr, |chunks|;
    }
  }

  /** What rt_free finds in the header of a live block, and what clearing its flags makes of the memory */
  lemma {:induction false} ReleaseReady(h: SmallHeapSpec.Heap, m: seq<int>, i: nat)
    requires HeapOk(h) && Encoded(m, h.chunks, h.End()) && i < |h.chunks| && h.chunks[i].used
    ensures h.chunks[i].start + HEADER <= |m|
    ensures
      var c := h.chunks[i];
      var m' := m[c.start + USED_AT := 0][c.start + MAGIC_AT := 0];
      && m[c.start + MAGIC_AT] == HEAP_MAGIC && m[c.start + NEXT_AT] == c.end
      && Encoded(m', Unmarked(h.chunks, i), h.End()) && PayloadsKept(m, m', Live(h.chunks) - {c})
      && Tiling(h.chunks, 0, h.End()) && Tiling(Unmarked(h.chunks, i), 0, h.End())
  {
    hide Encoded, Tiling, PayloadsKept, UsedSpan, Coalesced, Live;
    TilingCut(h.chunks, 0, h.End(), i);
    HeaderOf(m, h.chunks, i, h.End());
    UnmarkEncoded(m, h.chunks, i, h.End());
    UnmarkedTiling(h.chunks, i, h.End());
  }

  lemma {:induction false} UnmarkEncoded(m: seq<int>, cs: seq<Chunk>, i: nat, end: nat)
    requires Tiling(cs, 0, end) && i < |cs| && cs[i].used && Encoded(m, cs, end)
    ensures cs[i].start + HEADER <= |m|
    ensures
      var m' := m[cs[i].start + USED_AT := 0][cs[i].start + MAGIC_AT := 0];
      Encoded(m', Unmarked(cs, i), end) && PayloadsKept(m, m', Live(cs) - {cs[i]})
  {
    TilingCut(cs, 0, end, i);
    TilingCut(cs, 0, end, i + 1);
    HeaderOf(m, cs, i, end);
    if i + 1 < |cs| {
      HeaderOf(m, cs, i + 1, end);
    }
    var m' := m[cs[i].start + USED_AT := 0][cs[i].start + MAGIC_AT := 0];
    UpdateIsSplice(cs, i, cs[i].(used := false));
    OneEncoded(m, m', cs, i, i + 1, cs[i].(used := false), end, Live(cs) - {cs[i]});
  }

  /** The cursor of a well-formed heap rests on a chunk or on `heap_end`, also after rt_free lowers it. */
  lemma {:induction false} CursorOnChunk(h: SmallHeapSpec.Heap, i: nat, mem: nat)
    requires HeapOk(h) && i < |h.chunks| && mem == h.chunks[i].start
    ensures
      var l := if mem < h.lfree then mem else h.lfree;
      l == h.End() || exists c :: c in Unmarked(h.chunks, i) && c.start == l
  {
    hide Tiling, UsedSpan;
    var cs := Unmarked(h.chunks, i);
    assert cs[i] in cs && cs[i].start == mem;
    if h.lfree <= mem && h.lfree != h.End() {
      var c :| c in h.chunks && !c.used && c.start == h.lfree;
      var k :| 0 <= k < |h.chunks| && h.chunks[k] == c;
      assert cs[k] in cs && cs[k].start == c.start;
    }
  }

  lemma {:induction false} CursorAfterCut(h: SmallHeapSpec.Heap, i: nat, size: nat)
    requires HeapOk(h) && i < |h.chunks| && h.chunks[i].used
    ensures h.lfree == h.End() || exists c :: c in CutAt(h.chunks, i, size) && c.start == h.lfree
  {
    if h.lfree != h.End() {
      var c :| c in h.chunks && !c.used && c.start == h.lfree;
      CutKeeps(h.chunks, i, size, c);
    }
  }

  lemma {:induction false} LiveInRam(h: SmallHeapSpec.Heap, m: seq<int>, c: Chunk)
    requires HeapOk(h) && Encoded(m, h.chunks, h.End()) && c in h.chunks
    ensures c.Ptr() <= c.end <= |m|
  {
    var k :| 0 <= k < |h.chunks| && h.chunks[k] == c;
    TilingCut(h.chunks, 0, h.End(), k);
  }

  /** Changing bytes of one payload damages neither the headers nor any other payload. */
  lemma {:induction false} PayloadWrite(m: seq<int>, m': seq<int>, h: SmallHeapSpec.Heap, c: Chunk)
    requires HeapOk(h) && Encoded(m, h.chunks, h.End()) && c in h.chunks && |m'| == |m|
    requires forall a | 0 <= a < |m| && !(c.Ptr() <= a < c.end) :: m'[a] == m[a]
    ensures Encoded(m', h.chunks, h.End()) && PayloadsKept(m, m', Live(h.chunks) - {c})
  {
    hide Tiling, UsedSpan, Coalesced, CursorOk;
    var cs := h.chunks;
    TilingSorted(cs, 0, h.End());
    var k :| 0 <= k < |cs| && cs[k] == c;
    forall i | 0 <= i < |cs| ensures EncodedAt(m', cs, i) {
      assert EncodedAt(m, cs, i);
      assert i < k ==> cs[i].end <= c.start;
      assert k < i ==> c.end <= cs[i].start;
    }
    forall d, a | d in Live(cs) - {c} && d.Ptr() <= a < d.end && a < |m| ensures m'[a] == m[a] {
      LiveDisjoint(h, c, d);
    }
  }

  /** The `n` bytes at `q` in `m'` are the `n` bytes at `p` in `m`. */
  ghost predicate Prefix(m: seq<int>, p: int, m': seq<int>, q: int, n: int) {
    && 0 <= p && p + n <= |m| && 0 <= q && q + n <= |m'|
    && (forall a | q <= a < q + n :: m'[a] == m[a - q + p])
  }

  lemma {:induction false} PayloadsShrink(m: seq<int>, m': seq<int>, live: set<Chunk>, c: Chunk)
    requires PayloadsKept(m, m', live)
    ensures PayloadsKept(m, m', live - {c})
  {
  }

  lemma {:induction false} KeptSame(m: seq<int>, live: set<Chunk>)
    ensures PayloadsKept(m, m, live)
  {
  }

  lemma {:induction false} ShrinkKept(m: seq<int>, m': seq<int>, live: set<Chunk>, live': set<Chunk>, c: Chunk, size: nat)
    requires PayloadsKept(m, m', live') && live' == live - {c} + {Shrunk(c, size)}
    requires size <= c.Payload() && c.end <= |m|
    ensures PayloadsKept(m, m', live - {c})
    ensures Prefix(m, c.Ptr(), m', c.Ptr(), size)
  {
    assert Shrunk(c, size) in live';
  }

  /** A chunk is known by its offset. */
  lemma {:induction false} OnlyAt(h: SmallHeapSpec.Heap, i: nat)
    requires HeapOk(h) && i < |h.chunks|
    ensures Tiling(h.chunks, 0, h.End())
    ensures forall d :: d in h.chunks && d.start == h.chunks[i].start ==> d == h.chunks[i]
  {
    hide Tiling, UsedSpan, Coalesced, CursorOk;
    TilingSorted(h.chunks, 0, h.End());
    forall d | d in h.chunks && d.start == h.chunks[i].start ensures d == h.chunks[i] {
      if d != h.chunks[i] {
        LiveDisjoint(h, d, h.chunks[i]);
      }
    }
  }

  lemma {:induction false} ForeignNotLive(h: SmallHeapSpec.Heap, p: Ptr)
    requires HeapOk(h) && Foreign(h, p)
    ensures forall c :: c in Live(h.chunks) ==> p != At(c.Ptr())
  {
    forall c | c in Live(h.chunks) ensures p != At(c.Ptr()) {
      LivePtrInside(h, c);
    }
  }

  /** The block that rt_realloc moves `c` to: new, large enough and apart from `c`. */
  lemma {:induction false} MoveTarget(h: SmallHeapSpec.Heap, c: Chunk, size: nat, m1: seq<int>) returns (d: Chunk)
    requires HeapOk(h) && c in Live(h.chunks) && Malloc(h, size).1 != Null && size % 4 == 0 && size < WORD_LIMIT
    requires HeapOk(Malloc(h, size).0) && Encoded(m1, Malloc(h, size).0.chunks, h.End())
    ensures Live(Malloc(h, size).0.chunks) == Live(h.chunks) + {d} && d !in Live(h.chunks)
    ensures Malloc(h, size).1 == At(d.Ptr()) && size <= d.Payload() && d.end <= |m1|
    ensures d in Malloc(h, size).0.chunks
    ensures c in Live(Malloc(h, size).0.chunks)
    ensures c.end <= d.start || d.end <= c.start
  {
    assert Malloc(h, size).0.memSize == h.memSize;
    hide HeapOk, Encoded, Malloc, Want;
    d := MallocAddsOne(h, size);
    assert d in Live(Malloc(h, size).0.chunks);
    LiveInRam(Malloc(h, size).0, m1, d);
    WantCovers(size);
  }

  lemma {:induction false} CopyReady(h: SmallHeapSpec.Heap, m: seq<int>, c: Chunk, d: Chunk)
    requires HeapOk(h) && Encoded(m, h.chunks, h.End()) && c in Live(h.chunks) && d in Live(h.chunks) && c != d
    ensures c in h.chunks && d in h.chunks && c.Ptr() <= c.end <= |m| && d.Ptr() <= d.end <= |m|
    ensures c.end <= d.start || d.end <= c.start
    ensures IsLive(h, At(c.Ptr())) && !Foreign(h, At(c.Ptr()))
    ensures IndexOf(h.chunks, c.start) < |h.chunks| && h.chunks[IndexOf(h.chunks, c.start)] == c
  {
    hide HeapOk, Encoded, IsLive;
    LiveInRam(h, m, c);
    LiveInRam(h, m, d);
    LiveDisjoint(h, c, d);
    LiveIndex(h, c);
  }

  lemma {:induction false} CopyKept(live: set<Chunk>, c: Chunk, d: Chunk, m: seq<int>, m2: seq<int>, m3: seq<int>, n: nat)
    requires c in live && d in live && c != d
    requires PayloadsKept(m, m2, live - {d}) && PayloadsKept(m2, m3, live - {c})
    requires n <= d.Payload() && d.end <= |m|
    requires Prefix(m, c.Ptr(), m2, d.Ptr(), n)
    ensures PayloadsKept(m, m3, live - {c} - {d})
    ensures Prefix(m, c.Ptr(), m3, d.Ptr(), n)
  {
    assert d in live - {c};
  }

  /** Over the steps of a move, other payloads stay and the copied bytes survive the free. */
  lemma {:induction false} MoveKept(live: set<Chunk>, c: Chunk, d: Chunk, m: seq<int>, m1: seq<int>, m3: seq<int>, n: nat)
    requires d !in live && c in live && n <= c.Payload() && c.end <= |m|
    requires PayloadsKept(m, m1, live) && PayloadsKept(m1, m3, live + {d} - {c} - {d})
    requires Prefix(m1, c.Ptr(), m3, d.Ptr(), n)
    ensures PayloadsKept(m, m3, live - {c})
    ensures Prefix(m, c.Ptr(), m3, d.Ptr(), n)
  {
    assert live + {d} - {c} - {d} == live - {c};
    forall a | d.Ptr() <= a < d.Ptr() + n ensures m3[a] == m[a - d.Ptr() + c.Ptr()] {
      assert m1[a - d.Ptr() + c.Ptr()] == m[a - d.Ptr() + c.Ptr()];
    }
  }

  lemma {:induction false} EndMarked(m: seq<int>, cs: seq<Chunk>, end: nat)
    requires Encoded(m, cs, end)
    ensures |m| == end + HEADER && m[end + USED_AT] == 1
  {
  }

  lemma {:induction false} MergeLive(cs: seq<Chunk>, i: nat)
    requires i + 1 < |cs| && !cs[i].used && !cs[i + 1].used
    ensures Live(Splice(cs, i, i + 2, [Chunk(cs[i].start, cs[i + 1].end, false)])) == Live(cs)
  {
    var d := Chunk(cs[i].start, cs[i + 1].end, false);
    assert cs[i..i + 2] == [cs[i], cs[i + 1]];
    forall e ensures e in Live(Splice(cs, i, i + 2, [d])) <==> e in Live(cs) {
      SpliceMembers(cs, i, i + 2, [d], e);
    }
  }

  /** The two cursor corrections of plug_holes together are PlugCursor. */
  lemma {:induction false} PlugCursorInTwoSteps(cs: seq<Chunk>, i: nat, lfree: nat, end: nat)
    requires Tiling(cs, 0, end) && i < |cs| && !cs[i].used
    requires lfree == end || exists c :: c in cs && c.start == lfree
    ensures
      var l1 := if Hi(cs, i) == i + 2 && lfree == cs[i + 1].start then cs[i].start else lfree;
      PlugCursor(cs, i, lfree) == if Lo(cs, i) < i && l1 == cs[i].start then cs[i - 1].start else l1
  {
    hide Tiling;
    TilingSorted(cs, 0, end);
    if lfree != end {
      var c :| c in cs && c.start == lfree;
      var k :| 0 <= k < |cs| && cs[k] == c;
    }
  }

  lemma {:induction false} NoFitBeyond(cs: seq<Chunk>, i: nat, want: nat, memSize: nat)
    requires Tiling(cs, 0, memSize + HEADER) && i <= |cs|
    requires i < |cs| ==> memSize - want <= cs[i].start
    ensures Search(cs, i, want, memSize) == |cs|
  {
    TilingSorted(cs, 0, memSize + HEADER);
    forall k | i < k < |cs| ensures !Fits(cs[k], want, memSize) {
      assert cs[i].end <= cs[k].start;
    }
  }
}

/**
  What every call of the small-memory allocator keeps, and what each call does to the set of
  live allocations.
 */
module SmallHeapProofs {
  import opened Sequences
  import opened SmallHeapSpec

  lemma {:induction false} InitOk(memSize: nat)
    requires MIN_SIZE <= memSize && memSize % 4 == 0 && memSize + 2 * HEADER <= WORD_LIMIT
    ensures HeapOk(Init(memSize)) && CursorLowest(Init(memSize).chunks, Init(memSize).lfree)
  {
    var c := Chunk(0, memSize + HEADER, false);
    assert [c][1..] == [];
    assert c in [c];
    assert UsedSpan([c]) == UsedSpan([c][..0]);
  }

  // ---------------------------------------------------------------------------------
  // Facts about rows
  // ---------------------------------------------------------------------------------

  lemma {:induction false} UsedSpanOne(c: Chunk)
    ensures UsedSpan([c]) == if c.used then c.Span() else 0
  {
    assert [c][..0] == [];
  }

  lemma {:induction false} UsedSpanTwo(c: Chunk, d: Chunk)
    ensures UsedSpan([c, d]) == (if c.used then c.Span() else 0) + (if d.used then d.Span() else 0)
  {
    UsedSpanConcat([c], [d]);
    UsedSpanOne(c);
    UsedSpanOne(d);
    assert [c] + [d] == [c, d];
  }

  /** The offset of a chunk finds it again. */
  lemma {:induction false} IndexOfStart(cs: seq<Chunk>, lo: nat, hi: nat, i: nat)
    requires Tiling(cs, lo, hi) && i < |cs|
    ensures IndexOf(cs, cs[i].start) == i
  {
    TilingSorted(cs, lo, hi);
  }

  lemma {:induction false} TilingOne(c: Chunk)
    requires c.start % 4 == 0 && c.end % 4 == 0 && c.start + HEADER <= c.end
    ensures Tiling([c], c.start, c.end)
  {
    assert [c][1..] == [];
  }

  lemma {:induction false} TilingTwo(c: Chunk, d: Chunk)
    requires c.start % 4 == 0 && c.end % 4 == 0 && c.start + HEADER <= c.end == d.start
    requires d.end % 4 == 0 && d.start + HEADER <= d.end
    ensures Tiling([c, d], c.start, d.end)
  {
    TilingOne(d);
    assert [c, d][1..] == [d];
  }

  /** A splice between used neighbours stays coalesced. */
  lemma {:induction false} SpliceCoalesced(cs: seq<Chunk>, lo: nat, hi: nat, mid: seq<Chunk>)
    requires Coalesced(cs) && lo < hi <= |cs| && Coalesced(mid) && |mid| > 0
    requires lo > 0 ==> cs[lo - 1].used || mid[0].used
    requires hi < |cs| ==> mid[|mid| - 1].used || cs[hi].used
    ensures Coalesced(Splice(cs, lo, hi, mid))
  {
    var r := Splice(cs, lo, hi, mid);
    var k := |mid|;
    forall i, j | 0 <= i < j < |r| && j == i + 1 ensures r[i].used || r[j].used {
      if j < lo {
        assert r[i] == cs[i] && r[j] == cs[j];
      } else if j == lo {
        assert r[i] == cs[i] && r[j] == mid[0];
      } else if j < lo + k {
        assert r[i] == mid[i - lo] && r[j] == mid[j - lo];
      } else if j == lo + k {
        assert r[i] == mid[k - 1] && r[j] == cs[hi];
      } else {
        assert r[i] == cs[i - lo - k + hi] && r[j] == cs[j - lo - k + hi];
      }
    }
  }

  // ---------------------------------------------------------------------------------
  // rt_malloc
  // ---------------------------------------------------------------------------------

  lemma {:induction false} AllocTiling(h: Heap, i: nat, want: nat)
    requires HeapOk(h) && i < |h.chunks| && want % 4 == 0 && Fits(h.chunks[i], want, h.memSize)
    ensures
      var mid := Carve(h.chunks[i], want);
      Tiling(mid, h.chunks[i].start, h.chunks[i].end) && Tiling(AllocAt(h, i, want).chunks, 0, h.End())
  {
    var c := h.chunks[i];
    var mid := Carve(c, want);
    TilingCut(h.chunks, 0, h.End(), i);
    if |mid| == 1 {
      TilingOne(mid[0]);
    } else {
      TilingTwo(mid[0], mid[1]);
    }
    SpliceTiling(h.chunks, i, i + 1, mid, 0, h.End());
  }

  lemma {:induction false} AllocCoalesced(h: Heap, i: nat, want: nat)
    requires HeapOk(h) && i < |h.chunks| && Fits(h.chunks[i], want, h.memSize)
    ensures Coalesced(AllocAt(h, i, want).chunks)
    ensures
      var cs := AllocAt(h, i, want).chunks;
      |cs| > 0 && cs[|cs| - 1].Payload() >= MIN_SIZE
  {
    var mid := Carve(h.chunks[i], want);
    if i + 1 < |h.chunks| {
      assert h.chunks[i].used || h.chunks[i + 1].used;
    }
    SpliceCoalesced(h.chunks, i, i + 1, mid);
    var cs := AllocAt(h, i, want).chunks;
    if i + 1 < |h.chunks| {
      assert cs[|cs| - 1] == h.chunks[|h.chunks| - 1];
    } else {
      assert cs[|cs| - 1] == mid[|mid| - 1];
    }
  }

  lemma {:induction false} AllocAccounting(h: Heap, i: nat, want: nat)
    requires HeapOk(h) && i < |h.chunks| && Fits(h.chunks[i], want, h.memSize)
    ensures AllocAt(h, i, want).usedMem == UsedSpan(AllocAt(h, i, want).chunks)
  {
    var c := h.chunks[i];
    var mid := Carve(c, want);
    SpliceUsedSpan(h.chunks, i, i + 1, mid);
    assert h.chunks[i..i + 1] == [c];
    UsedSpanOne(c);
    if |mid| == 1 {
      UsedSpanOne(mid[0]);
    } else {
      UsedSpanTwo(mid[0], mid[1]);
    }
  }

  lemma {:induction false} AllocLive(h: Heap, i: nat, want: nat)
    requires HeapOk(h) && i < |h.chunks| && Fits(h.chunks[i], want, h.memSize)
    ensures
      var taken := Carve(h.chunks[i], want)[0];
      taken !in Live(h.chunks) && Live(AllocAt(h, i, want).chunks) == Live(h.chunks) + {taken}
  {
    hide Tiling;
    var c := h.chunks[i];
    var mid := Carve(c, want);
    var cs := AllocAt(h, i, want).chunks;
    TilingSorted(h.chunks, 0, h.End());
    forall d ensures d in Live(cs) <==> d in Live(h.chunks) + {mid[0]} {
      SpliceMembers(h.chunks, i, i + 1, mid, d);
      assert h.chunks[i..i + 1] == [c];
      assert d in mid && d.used ==> d == mid[0];
    }
  }

  lemma {:induction false} AllocCursor(h: Heap, i: nat, want: nat)
    requires HeapOk(h) && i < |h.chunks| && Fits(h.chunks[i], want, h.memSize)
    ensures CursorOk(AllocAt(h, i, want).chunks, AllocAt(h, i, want).lfree, h.End())
  {
    var h' := AllocAt(h, i, want);
    var taken := Carve(h.chunks[i], want)[0];
    AllocLive(h, i, want);
    assert taken in Live(h'.chunks);
    if h.chunks[i].start != h.lfree && h.lfree != h.End() {
      var c :| c in h.chunks && !c.used && c.start == h.lfree;
      SpliceMembers(h.chunks, i, i + 1, Carve(h.chunks[i], want), c);
      assert h.chunks[i..i + 1] == [h.chunks[i]];
    }
  }

  lemma {:induction false} AllocKeepsHeap(h: Heap, i: nat, want: nat)
    requires HeapOk(h) && i < |h.chunks| && want % 4 == 0 && Fits(h.chunks[i], want, h.memSize)
    ensures HeapOk(AllocAt(h, i, want))
  {
    hide Tiling;
    hide UsedSpan;
    hide Coalesced;
    hide CursorOk;
    AllocTiling(h, i, want);
    AllocCoalesced(h, i, want);
    AllocAccounting(h, i, want);
    AllocCursor(h, i, want);
  }

  /** rt_malloc keeps the heap well formed. */
  lemma {:induction false} MallocKeepsHeap(h: Heap, size: nat)
    requires HeapOk(h)
    ensures HeapOk(Malloc(h, size).0)
  {
    var i := Choice(h, size);
    if i < |h.chunks| {
      AllocKeepsHeap(h, i, Want(size));
    }
  }

  // ---------------------------------------------------------------------------------
  // plug_holes, rt_free and the in-place rt_realloc
  // ---------------------------------------------------------------------------------

  /** Coalesced but for the free chunk `i` and its neighbours */
  ghost predicate CoalescedBut(cs: seq<Chunk>, i: nat) {
    forall k, j | 0 <= k < j < |cs| && j == k + 1 && k != i && j != i :: cs[k].used || cs[j].used
  }

  lemma {:induction false} PlugTiling(cs: seq<Chunk>, i: nat, hi: nat)
    requires Tiling(cs, 0, hi) && i < |cs|
    ensures Tiling(Plug(cs, i), 0, hi)
    ensures Merged(cs, i).start + HEADER <= Merged(cs, i).end <= hi
  {
    TilingSorted(cs, 0, hi);
    TilingCut(cs, 0, hi, Lo(cs, i));
    TilingCut(cs, 0, hi, Hi(cs, i) - 1);
    TilingOne(Merged(cs, i));
    SpliceTiling(cs, Lo(cs, i), Hi(cs, i), [Merged(cs, i)], 0, hi);
  }

  lemma {:induction false} PlugCoalesced(cs: seq<Chunk>, i: nat)
    requires i < |cs| && CoalescedBut(cs, i)
    ensures Coalesced(Plug(cs, i))
  {
    var lo, hi := Lo(cs, i), Hi(cs, i);
    var r := Plug(cs, i);
    forall k, j | 0 <= k < j < |r| && j == k + 1 ensures r[k].used || r[j].used {
      if j < lo {
        assert r[k] == cs[k] && r[j] == cs[j];
      } else if j == lo {
        assert r[k] == cs[k];
        if lo < i {
          assert cs[lo].used || cs[k].used;
        }
      } else if j == lo + 1 {
        assert r[j] == cs[hi];
        assert hi == i + 1 || cs[hi - 1].used || cs[hi].used;
      } else {
        assert r[k] == cs[k - lo - 1 + hi] && r[j] == cs[j - lo - 1 + hi];
      }
    }
  }

  lemma {:induction false} PlugUsedSpan(cs: seq<Chunk>, i: nat)
    requires i < |cs| && !cs[i].used
    ensures UsedSpan(Plug(cs, i)) == UsedSpan(cs)
  {
    var lo, hi := Lo(cs, i), Hi(cs, i);
    SpliceUsedSpan(cs, lo, hi, [Merged(cs, i)]);
    UsedSpanOne(Merged(cs, i));
    NoUsedSpan(cs[lo..hi]);
  }

  lemma {:induction false} NoUsedSpan(cs: seq<Chunk>)
    requires forall c :: c in cs ==> !c.used
    ensures UsedSpan(cs) == 0
  {
    if cs != [] {
      NoUsedSpan(cs[..|cs| - 1]);
    }
  }

  lemma {:induction false} PlugLive(cs: seq<Chunk>, i: nat)
    requires i < |cs| && !cs[i].used
    ensures Live(Plug(cs, i)) == Live(cs)
  {
    forall d ensures d in Live(Plug(cs, i)) <==> d in Live(cs) {
      SpliceMembers(cs, Lo(cs, i), Hi(cs, i), [Merged(cs, i)], d);
    }
  }

  /** A free chunk survives plug_holes, or the merged chunk covers it. */
  lemma {:induction false} PlugFree(cs: seq<Chunk>, i: nat, hi: nat, c: Chunk)
    requires Tiling(cs, 0, hi) && i < |cs| && !cs[i].used && c in cs && !c.used
    ensures Merged(cs, i) in Plug(cs, i)
    ensures c in Plug(cs, i) || Merged(cs, i).start <= c.start < Merged(cs, i).end
  {
    var k :| 0 <= k < |cs| && cs[k] == c;
    var lo, up := Lo(cs, i), Hi(cs, i);
    SpliceMembers(cs, lo, up, [Merged(cs, i)], c);
    SpliceMembers(cs, lo, up, [Merged(cs, i)], Merged(cs, i));
    TilingSorted(cs, 0, hi);
    if lo <= k < up {
    } else if k < lo {
      assert c in cs[..lo];
    } else {
      assert c in cs[up..];
    }
  }

  lemma {:induction false} PlugLast(cs: seq<Chunk>, i: nat, hi: nat)
    requires Tiling(cs, 0, hi) && i < |cs|
    requires cs[|cs| - 1].Payload() >= MIN_SIZE
    ensures |Plug(cs, i)| > 0 && Plug(cs, i)[|Plug(cs, i)| - 1].Payload() >= MIN_SIZE
  {
    TilingSorted(cs, 0, hi);
    var r := Plug(cs, i);
    if Hi(cs, i) < |cs| {
      assert r[|r| - 1] == cs[|cs| - 1];
    } else {
      assert r[|r| - 1] == Merged(cs, i);
    }
  }

  /** plug_holes turns a row that is coalesced but for chunk `i` into a well-formed one. */
  lemma {:induction false} PlugRow(cs: seq<Chunk>, i: nat, hi: nat)
    requires Tiling(cs, 0, hi) && i < |cs| && !cs[i].used && CoalescedBut(cs, i)
    requires cs[|cs| - 1].Payload() >= MIN_SIZE
    ensures RowOk(Plug(cs, i), hi)
    ensures UsedSpan(Plug(cs, i)) == UsedSpan(cs)
    ensures Live(Plug(cs, i)) == Live(cs)
  {
    PlugTiling(cs, i, hi);
    PlugCoalesced(cs, i);
    PlugUsedSpan(cs, i);
    PlugLive(cs, i);
    PlugLast(cs, i, hi);
  }

  lemma {:induction false} PlugCursorOk(cs: seq<Chunk>, i: nat, hi: nat, lfree: nat)
    requires Tiling(cs, 0, hi) && i < |cs| && !cs[i].used
    requires exists c :: c in cs && !c.used && c.start == lfree
    ensures CursorOk(Plug(cs, i), PlugCursor(cs, i, lfree), hi)
    ensures PlugCursor(cs, i, lfree) < hi
  {
    var c :| c in cs && !c.used && c.start == lfree;
    var k :| 0 <= k < |cs| && cs[k] == c;
    TilingCut(cs, 0, hi, k);
    PlugTiling(cs, i, hi);
    TilingCut(cs, 0, hi, Hi(cs, i) - 1);
    PlugFree(cs, i, hi, c);
  }

  lemma {:induction false} UpdateIsSplice(cs: seq<Chunk>, i: nat, d: Chunk)
    requires i < |cs|
    ensures cs[i := d] == Splice(cs, i, i + 1, [d])
    ensures cs[i..i + 1] == [cs[i]]
  {
  }

  /** The row just before rt_free calls plug_holes */
  function Unmarked(cs: seq<Chunk>, i: nat): seq<Chunk>
    requires i < |cs|
  {
    cs[i := cs[i].(used := false)]
  }

  lemma {:induction false} UnmarkedTiling(cs: seq<Chunk>, i: nat, hi: nat)
    requires Tiling(cs, 0, hi) && i < |cs|
    ensures Tiling(Unmarked(cs, i), 0, hi)
    ensures Coalesced(cs) ==> CoalescedBut(Unmarked(cs, i), i)
    ensures Unmarked(cs, i)[|cs| - 1].Payload() == cs[|cs| - 1].Payload()
  {
    var d := cs[i].(used := false);
    UpdateIsSplice(cs, i, d);
    TilingCut(cs, 0, hi, i);
    TilingOne(d);
    SpliceTiling(cs, i, i + 1, [d], 0, hi);
  }

  lemma {:induction false} UnmarkedUsedSpan(cs: seq<Chunk>, i: nat)
    requires i < |cs| && cs[i].used
    ensures UsedSpan(Unmarked(cs, i)) == UsedSpan(cs) - cs[i].Span()
  {
    var d := cs[i].(used := false);
    UpdateIsSplice(cs, i, d);
    SpliceUsedSpan(cs, i, i + 1, [d]);
    UsedSpanOne(cs[i]);
    UsedSpanOne(d);
  }

  lemma {:induction false} UnmarkedLive(cs: seq<Chunk>, i: nat, hi: nat)
    requires Tiling(cs, 0, hi) && i < |cs| && cs[i].used
    ensures Live(Unmarked(cs, i)) == Live(cs) - {cs[i]}
  {
    var d := cs[i].(used := false);
    UpdateIsSplice(cs, i, d);
    TilingSorted(cs, 0, hi);
    assert cs[i] !in Unmarked(cs, i);
    forall e ensures e in Live(Unmarked(cs, i)) <==> e in Live(cs) - {cs[i]} {
      SpliceMembers(cs, i, i + 1, [d], e);
    }
  }

  lemma {:induction false} FreeCursor(cs: seq<Chunk>, i: nat, hi: nat, lfree: nat)
    requires Tiling(cs, 0, hi) && i < |cs| && cs[i].used && CursorOk(cs, lfree, hi)
    ensures
      var cs' := Unmarked(cs, i);
      var l := PlugCursor(cs', i, if cs[i].start < lfree then cs[i].start else lfree);
      CursorOk(Plug(cs', i), l, hi) && l < hi
  {
    var cs' := Unmarked(cs, i);
    UnmarkedTiling(cs, i, hi);
    var d := cs'[i];
    assert d in cs';
    TilingCut(cs, 0, hi, i);
    if cs[i].start < lfree {
      PlugCursorOk(cs', i, hi, cs[i].start);
    } else {
      var c :| c in cs && !c.used && c.start == lfree;
      var k :| 0 <= k < |cs| && cs[k] == c;
      assert cs'[k] == c;
      PlugCursorOk(cs', i, hi, lfree);
    }
  }

  /** Freeing a live chunk keeps the heap well formed and removes exactly that chunk. */
  lemma {:induction false} FreeAtKeepsHeap(h: Heap, i: nat)
    requires HeapOk(h) && i < |h.chunks| && h.chunks[i].used
    ensures HeapOk(FreeAt(h, i))
    ensures Live(FreeAt(h, i).chunks) == Live(h.chunks) - {h.chunks[i]}
  {
    hide Tiling;
    hide UsedSpan;
    hide Coalesced;
    hide CursorOk;
    var cs := Unmarked(h.chunks, i);
    UnmarkedTiling(h.chunks, i, h.End());
    UnmarkedUsedSpan(h.chunks, i);
    UnmarkedLive(h.chunks, i, h.End());
    FreeCursor(h.chunks, i, h.End(), h.lfree);
    TilingCut(h.chunks, 0, h.End(), i);
    PlugRow(cs, i, h.End());
  }

  // The row just before rt_realloc calls plug_holes is CutAt(cs, i, size).

  ghost predicate Cuttable(cs: seq<Chunk>, i: nat, size: nat) {
    i < |cs| && cs[i].used && size % 4 == 0 && size + HEADER + MIN_SIZE < cs[i].Payload()
  }

  lemma {:induction false} CutTiling(cs: seq<Chunk>, i: nat, size: nat, hi: nat)
    requires RowOk(cs, hi) && Cuttable(cs, i, size)
    ensures
      var r := CutAt(cs, i, size);
      && Tiling(r, 0, hi) && i + 1 < |r| && !r[i + 1].used && CoalescedBut(r, i + 1)
      && r[|r| - 1].Payload() >= MIN_SIZE
  {
    var c, r := cs[i], CutAt(cs, i, size);
    var a, b := Shrunk(c, size), Remainder(c, size);
    TilingCut(cs, 0, hi, i);
    TilingTwo(a, b);
    SpliceTiling(cs, i, i + 1, [a, b], 0, hi);
    assert forall k | 0 <= k < i :: r[k] == cs[k];
    assert forall k | i + 2 <= k < |r| :: r[k] == cs[k - 1];
  }

  lemma {:induction false} CutUsedSpan(cs: seq<Chunk>, i: nat, size: nat)
    requires i < |cs| && cs[i].used
    ensures UsedSpan(CutAt(cs, i, size)) == UsedSpan(cs) - (cs[i].Payload() - size)
  {
    var c := cs[i];
    var a, b := Shrunk(c, size), Remainder(c, size);
    assert UsedSpan([a, b]) == HEADER + size by { UsedSpanTwo(a, b); }
    assert UsedSpan(cs[i..i + 1]) == c.Span() by {
      UpdateIsSplice(cs, i, c);
      UsedSpanOne(c);
    }
    SpliceUsedSpan(cs, i, i + 1, [a, b]);
  }

  lemma {:induction false} CutLive(cs: seq<Chunk>, i: nat, size: nat, hi: nat)
    requires Tiling(cs, 0, hi) && Cuttable(cs, i, size)
    ensures Live(CutAt(cs, i, size)) == Live(cs) - {cs[i]} + {Shrunk(cs[i], size)}
  {
    var c := cs[i];
    var a, b := Shrunk(c, size), Remainder(c, size);
    TilingSorted(cs, 0, hi);
    UpdateIsSplice(cs, i, c);
    forall e ensures e in Live(CutAt(cs, i, size)) <==> e in Live(cs) - {c} + {a} {
      SpliceMembers(cs, i, i + 1, [a, b], e);
    }
  }

  lemma {:induction false} ShrinkCursor(cs: seq<Chunk>, i: nat, size: nat, hi: nat, lfree: nat)
    requires RowOk(cs, hi) && Cuttable(cs, i, size) && CursorOk(cs, lfree, hi)
    ensures i + 1 < |CutAt(cs, i, size)|
    ensures var r := CutAt(cs, i, size); CursorOk(Plug(r, i + 1), PlugCursor(r, i + 1, lfree), hi)
  {
    hide Tiling;
    var r := CutAt(cs, i, size);
    CutTiling(cs, i, size, hi);
    if lfree == hi {
      ShrinkRow(cs, i, size, hi);
      assert Shrunk(cs[i], size) in Live(Plug(r, i + 1));
      PlugTiling(r, i + 1, hi);
    } else {
      var f :| f in cs && !f.used && f.start == lfree;
      CutKeeps(cs, i, size, f);
      PlugCursorOk(r, i + 1, hi, lfree);
    }
  }

  lemma {:induction false} CutKeeps(cs: seq<Chunk>, i: nat, size: nat, f: Chunk)
    requires i < |cs| && f in cs && f != cs[i]
    ensures f in CutAt(cs, i, size)
  {
    SpliceMembers(cs, i, i + 1, [Shrunk(cs[i], size), Remainder(cs[i], size)], f);
    UpdateIsSplice(cs, i, cs[i]);
  }

  lemma {:induction false} ShrinkRow(cs: seq<Chunk>, i: nat, size: nat, hi: nat)
    requires RowOk(cs, hi) && Cuttable(cs, i, size)
    ensures
      var r := Plug(CutAt(cs, i, size), i + 1);
      && RowOk(r, hi)
      && UsedSpan(r) == UsedSpan(cs) - (cs[i].Payload() - size)
      && Live(r) == Live(cs) - {cs[i]} + {Shrunk(cs[i], size)}
  {
    CutTiling(cs, i, size, hi);
    CutUsedSpan(cs, i, size);
    CutLive(cs, i, size, hi);
    PlugRow(CutAt(cs, i, size), i + 1, hi);
  }

  /** Shrinking a live chunk in place keeps the heap well formed and changes only that chunk. */
  lemma {:induction false} ShrinkAtKeepsHeap(h: Heap, i: nat, size: nat)
    requires HeapOk(h) && Cuttable(h.chunks, i, size)
    ensures HeapOk(ShrinkAt(h, i, size))
    ensures Live(ShrinkAt(h, i, size).chunks) == Live(h.chunks) - {h.chunks[i]} + {Shrunk(h.chunks[i], size)}
  {
    hide Tiling;
    hide UsedSpan;
    hide Coalesced;
    hide CursorOk;
    ShrinkRow(h.chunks, i, size, h.End());
    ShrinkCursor(h.chunks, i, size, h.End(), h.lfree);
    TilingCut(h.chunks, 0, h.End(), i);
  }

  /** rt_free keeps the heap well formed. */
  lemma {:induction false} FreeKeepsHeap(h: Heap, p: Ptr)
    requires HeapOk(h) && (p == Null || Foreign(h, p) || IsLive(h, p))
    ensures HeapOk(Free(h, p))
  {
    if p != Null && !Foreign(h, p) {
      FreeAtKeepsHeap(h, IndexOf(h.chunks, p.offset - HEADER));
    }
  }

  lemma {:induction false} FreeLiveKeepsHeap(h: Heap, c: Chunk)
    requires HeapOk(h) && c in h.chunks && c.used
    ensures IndexOf(h.chunks, c.start) < |h.chunks| && HeapOk(FreeAt(h, IndexOf(h.chunks, c.start)))
  {
    hide Tiling, UsedSpan, Coalesced, CursorOk;
    var k :| 0 <= k < |h.chunks| && h.chunks[k] == c;
    IndexOfStart(h.chunks, 0, h.End(), k);
    FreeAtKeepsHeap(h, k);
  }

  /** rt_realloc keeps the heap well formed. */
  lemma {:induction false} ReallocKeepsHeap(h: Heap, p: Ptr, newSize: nat)
    requires HeapOk(h) && (p == Null || Foreign(h, p) || IsLive(h, p))
    ensures HeapOk(Realloc(h, p, newSize).0)
  {
    hide HeapOk, Malloc, ShrinkAt, FreeAt;
    var size := Align(newSize);
    MallocKeepsHeap(h, size);
    if size <= h.memSize && p != Null && !Foreign(h, p) {
      var i := IndexOf(h.chunks, p.offset - HEADER);
      var c := h.chunks[i];
      if size + HEADER + MIN_SIZE < c.Payload() {
        ShrinkAtKeepsHeap(h, i, size);
      } else if c.Payload() != size && Malloc(h, size).1 != Null {
        MallocKeepsLive(h, size, c);
        FreeLiveKeepsHeap(Malloc(h, size).0, c);
      }
    }
  }
}

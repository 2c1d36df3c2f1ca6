/**
  Results about whole runs of rt_malloc, rt_free and rt_realloc, and about what one call
  grants or refuses.
 */
module SmallHeapTheorems {
  import opened Sequences
  import opened SmallHeapSpec
  import opened SmallHeapProofs

  // ---------------------------------------------------------------------------------
  // What one call does to the live allocations
  // ---------------------------------------------------------------------------------

  /** Two live allocations never share an offset, header included. */
  lemma {:induction false} LiveDisjoint(h: Heap, c: Chunk, d: Chunk)
    requires HeapOk(h) && c in h.chunks && d in h.chunks && c != d
    ensures c.end <= d.start || d.end <= c.start
  {
    TilingSorted(h.chunks, 0, h.End());
    var i :| 0 <= i < |h.chunks| && h.chunks[i] == c;
    var j :| 0 <= j < |h.chunks| && h.chunks[j] == d;
    assert i < j || j < i;
  }

  /**
    A successful rt_malloc adds one new live chunk: aligned, inside the heap, large enough
    for the rounded request, carved out of offsets that were free.
   */
  lemma {:induction false} MallocAddsOne(h: Heap, size: nat) returns (c: Chunk)
    requires HeapOk(h) && Malloc(h, size).1 != Null
    ensures c !in Live(h.chunks)
    ensures Live(Malloc(h, size).0.chunks) == Live(h.chunks) + {c}
    ensures Malloc(h, size).1 == At(c.Ptr()) && c.Ptr() % 4 == 0
    ensures c.end <= h.End() && Want(size) <= c.Payload() < Want(size) + HEADER + MIN_SIZE
    ensures forall d :: d in Live(h.chunks) ==> c.end <= d.start || d.end <= c.start
  {
    var i := Choice(h, size);
    assert i < |h.chunks|;
    c := Carve(h.chunks[i], Want(size))[0];
    CarvedBlock(h, i, Want(size));
    AllocLive(h, i, Want(size));
    MallocKeepsHeap(h, size);
    hide HeapOk, Carve, Choice, Live, Want, Fits, AllocAt;
    var h' := Malloc(h, size).0;
    forall d | d in Live(h.chunks) ensures c.end <= d.start || d.end <= c.start {
      assert d in Live(h'.chunks) && c in Live(h'.chunks);
      LiveDisjoint(h', c, d);
    }
  }

  lemma {:induction false} CarvedBlock(h: Heap, i: nat, want: nat)
    requires HeapOk(h) && i < |h.chunks| && Fits(h.chunks[i], want, h.memSize)
    ensures
      var c := Carve(h.chunks[i], want)[0];
      && c.Ptr() == h.chunks[i].Ptr() && c.Ptr() % 4 == 0 && c.end <= h.End()
      && want <= c.Payload() < want + HEADER + MIN_SIZE
  {
    TilingCut(h.chunks, 0, h.End(), i);
    hide Tiling, UsedSpan;
  }

  /** The granted block holds the `size` bytes asked for exactly when RT_ALIGN does not wrap. */
  lemma {:induction false} GrantHoldsRequest(h: Heap, size: nat, c: Chunk)
    requires HeapOk(h) && size < WORD_LIMIT && Malloc(h, size).1 == At(c.Ptr())
    requires c in Live(Malloc(h, size).0.chunks)
    ensures size <= c.Payload() <==> size + 3 < WORD_LIMIT
  {
    var d := MallocAddsOne(h, size);
    MallocKeepsHeap(h, size);
    LivePtrInside(Malloc(h, size).0, c);
    LivePtrInside(Malloc(h, size).0, d);
    if c != d {
      LiveDisjoint(Malloc(h, size).0, c, d);
    }
    AlignFacts(size);
  }

  lemma {:induction false} AlignFacts(size: nat)
    requires size < WORD_LIMIT
    ensures size + 3 < WORD_LIMIT ==> size <= Align(size) <= size + 3
    ensures WORD_LIMIT <= size + 3 ==> Align(size) == 0
  {
    if WORD_LIMIT <= size + 3 {
      assert (size + 3) % WORD_LIMIT == size + 3 - WORD_LIMIT;
    }
  }

  lemma {:induction false} LiveIndex(h: Heap, c: Chunk)
    requires HeapOk(h) && c in Live(h.chunks)
    ensures IsLive(h, At(c.Ptr())) && !Foreign(h, At(c.Ptr()))
    ensures
      var k := IndexOf(h.chunks, c.start);
      k < |h.chunks| && h.chunks[k] == c
  {
    var k :| 0 <= k < |h.chunks| && h.chunks[k] == c;
    IndexOfStart(h.chunks, 0, h.End(), k);
    LivePtrInside(h, c);
  }

  /** rt_free removes exactly the chunk it is given, with every other chunk left as it was. */
  lemma {:induction false} FreeRemovesOne(h: Heap, c: Chunk)
    requires HeapOk(h) && c in Live(h.chunks)
    ensures IsLive(h, At(c.Ptr()))
    ensures Live(Free(h, At(c.Ptr())).chunks) == Live(h.chunks) - {c}
  {
    hide HeapOk, FreeAt;
    LiveIndex(h, c);
    FreeAtKeepsHeap(h, IndexOf(h.chunks, c.start));
  }

  /** The ways rt_realloc of a live block of `payload` bytes can go */
  datatype ReallocPath = TooLarge | SameSize | InPlace | Move

  function PathOf(memSize: nat, payload: int, newSize: nat): ReallocPath {
    if Align(newSize) > memSize then TooLarge
    else if payload == Align(newSize) then SameSize
    else if Align(newSize) + HEADER + MIN_SIZE < payload then InPlace
    else Move
  }

  /**
    rt_realloc of a live block: refused, kept, cut down in place, or moved to a block that
    was free.  No other live allocation changes.
   */
  lemma {:induction false} ReallocEffect(h: Heap, c: Chunk, newSize: nat)
    requires HeapOk(h) && c in Live(h.chunks)
    ensures IsLive(h, At(c.Ptr())) && !Foreign(h, At(c.Ptr()))
    ensures
      var (h', q) := Realloc(h, At(c.Ptr()), newSize);
      match PathOf(h.memSize, c.Payload(), newSize)
      case TooLarge => h' == h && q == Null
      case SameSize => h' == h && q == At(c.Ptr())
      case InPlace =>
        q == At(c.Ptr()) && Live(h'.chunks) == Live(h.chunks) - {c} + {Shrunk(c, Align(newSize))}
      case Move =>
        if q == Null then h' == h
        else exists d :: d !in Live(h.chunks) && q == At(d.Ptr()) && Align(newSize) <= d.Payload()
                         && Live(h'.chunks) == Live(h.chunks) + {d} - {c}
  {
    LiveIndex(h, c);
    var size := Align(newSize);
    match PathOf(h.memSize, c.Payload(), newSize)
    case TooLarge =>
    case SameSize =>
    case InPlace =>
      ShrinkAtKeepsHeap(h, IndexOf(h.chunks, c.start), size);
    case Move =>
      if Malloc(h, size).1 != Null {
        var d := MoveEffect(h, c, size);
      }
  }

  /** No free block at or above the cursor can serve the request, or there is none to serve. */
  ghost predicate Refused(h: Heap, size: nat) {
    || size == 0 || size > h.memSize
    || (forall c :: c in h.chunks && h.lfree <= c.start ==> !Usable(h, c, Want(size)))
  }

  lemma {:induction false} AlignTwice(size: nat)
    requires size < WORD_LIMIT
    ensures Align(size) % 4 == 0 && Align(size) < WORD_LIMIT && Align(Align(size)) == Align(size)
  {
  }

  /** A refused rt_malloc changes nothing; any other adds the block it returns to the live ones, and nothing else. */
  lemma {:induction false} MallocOutcome(h: Heap, size: nat)
    requires HeapOk(h) && size % 4 == 0 && size < WORD_LIMIT
    ensures Malloc(h, size).1 == Null <==> Refused(h, size)
    ensures Malloc(h, size).1 == Null ==> Malloc(h, size).0 == h
    ensures Malloc(h, size).1 != Null ==>
      exists d :: d !in Live(h.chunks) && Malloc(h, size).1 == At(d.Ptr()) && size <= d.Payload()
                  && Live(Malloc(h, size).0.chunks) == Live(h.chunks) + {d}
  {
    assert Align(size) == size;
    assert Malloc(h, size).1 == Null ==> Malloc(h, size).0 == h;
    hide HeapOk, Malloc, Live, Want;
    RefusesIff(h, size);
    if Malloc(h, size).1 != Null {
      var d := MallocAddsOne(h, size);
      WantCovers(size);
    }
  }

  /** A refused request changes nothing, whatever its size. */
  lemma {:induction false} RefusalKeeps(h: Heap, size: nat)
    requires Malloc(h, size).1 == Null
    ensures Malloc(h, size).0 == h
  {
  }

  /** rt_realloc of null is rt_malloc of the rounded size: refused under the same condition, and else the block it returns is live. */
  lemma {:induction false} ReallocOfNull(h: Heap, newSize: nat)
    requires HeapOk(h) && newSize < WORD_LIMIT
    ensures
      var (h', q) := Realloc(h, Null, newSize);
      && (q == Null <==> Refused(h, Align(newSize)))
      && (q == Null ==> h' == h)
      && (q != Null ==>
           exists d :: d !in Live(h.chunks) && q == At(d.Ptr()) && Align(newSize) <= d.Payload()
                       && Live(h'.chunks) == Live(h.chunks) + {d})
  {
    AlignTwice(newSize);
    hide HeapOk, Malloc, Live, Want, Align;
    MallocOutcome(h, Align(newSize));
  }

  /** rt_realloc gives a pointer outside the heap back, unless the size is too large, and changes nothing. */
  lemma {:induction false} ReallocOfForeign(h: Heap, p: Ptr, newSize: nat)
    requires Foreign(h, p)
    ensures Realloc(h, p, newSize) == (h, if Align(newSize) > h.memSize then Null else p)
  {
  }

  /** rt_realloc that has to move a live block fails, with the block kept, exactly if a malloc of the new size would. */
  lemma {:induction false} ReallocMoveFailsIff(h: Heap, c: Chunk, newSize: nat)
    requires HeapOk(h) && c in Live(h.chunks) && newSize < WORD_LIMIT && PathOf(h.memSize, c.Payload(), newSize) == Move
    ensures IsLive(h, At(c.Ptr()))
    ensures Realloc(h, At(c.Ptr()), newSize).1 == Null <==> Refused(h, Align(newSize))
    ensures Realloc(h, At(c.Ptr()), newSize).1 == Null ==> Realloc(h, At(c.Ptr()), newSize).0 == h
  {
    hide HeapOk, Malloc, Live, Want, Align, Realloc, PathOf, IsLive, Refused;
    LiveIndex(h, c);
    AlignTwice(newSize);
    MovesByMalloc(h, c, newSize);
    MallocOutcome(h, Align(newSize));
  }

  lemma {:induction false} MovesByMalloc(h: Heap, c: Chunk, newSize: nat)
    requires HeapOk(h) && c in Live(h.chunks) && PathOf(h.memSize, c.Payload(), newSize) == Move && IsLive(h, At(c.Ptr()))
    ensures Realloc(h, At(c.Ptr()), newSize).1 == Malloc(h, Align(newSize)).1
    ensures Malloc(h, Align(newSize)).1 == Null ==> Realloc(h, At(c.Ptr()), newSize).0 == Malloc(h, Align(newSize)).0
  {
    hide HeapOk, Malloc, Align, FreeAt, ShrinkAt, Live;
    LiveIndex(h, c);
  }

  /** rt_free of null or of a pointer outside the heap changes nothing. */
  lemma {:induction false} FreeOfOthers(h: Heap, p: Ptr)
    requires p == Null || Foreign(h, p)
    ensures Free(h, p) == h
  {
  }

  lemma {:induction false} MoveEffect(h: Heap, c: Chunk, size: nat) returns (d: Chunk)
    requires HeapOk(h) && c in Live(h.chunks) && Malloc(h, size).1 != Null && size % 4 == 0 && size < WORD_LIMIT
    ensures d !in Live(h.chunks) && Malloc(h, size).1 == At(d.Ptr()) && size <= d.Payload()
    ensures
      var h1 := Malloc(h, size).0;
      var k := IndexOf(h1.chunks, c.start);
      k < |h1.chunks| && Live(FreeAt(h1, k).chunks) == Live(h.chunks) + {d} - {c}
  {
    hide HeapOk, Malloc, FreeAt, Live, Want;
    d := MallocAddsOne(h, size);
    MallocKeepsHeap(h, size);
    FreeByStart(Malloc(h, size).0, c);
    WantCovers(size);
  }

  lemma {:induction false} WantCovers(size: nat)
    requires size % 4 == 0 && size < WORD_LIMIT
    ensures size <= Want(size)
  {
    AlignFacts(size);
  }

  lemma {:induction false} FreeByStart(h: Heap, c: Chunk)
    requires HeapOk(h) && c in Live(h.chunks)
    ensures
      var k := IndexOf(h.chunks, c.start);
      k < |h.chunks| && Live(FreeAt(h, k).chunks) == Live(h.chunks) - {c}
  {
    LiveIndex(h, c);
    FreeAtKeepsHeap(h, IndexOf(h.chunks, c.start));
  }

  /** A live pointer never equals `heap_end`, not even one to an empty payload. */
  lemma {:induction false} LivePtrInside(h: Heap, c: Chunk)
    requires HeapOk(h) && c in h.chunks
    ensures 0 <= c.Ptr() < h.End()
    ensures c.Ptr() <= c.end <= h.End()
  {
    TilingSorted(h.chunks, 0, h.End());
    var n := |h.chunks|;
    var k :| 0 <= k < n && h.chunks[k] == c;
    if k < n - 1 {
      assert c.end <= h.chunks[n - 1].start;
    }
  }

  // ---------------------------------------------------------------------------------
  // What rt_malloc grants and refuses
  // ---------------------------------------------------------------------------------

  lemma {:induction false} SearchSkips(cs: seq<Chunk>, i: nat, j: nat, want: nat, memSize: nat)
    requires i <= j <= |cs| && forall k | i <= k < j :: cs[k].used
    ensures Search(cs, i, want, memSize) == Search(cs, j, want, memSize)
    decreases j - i
  {
    if i < j {
      SearchSkips(cs, i + 1, j, want, memSize);
    }
  }

  /** While the cursor is lowest, searching from it finds what searching from offset 0 finds. */
  lemma {:induction false} CursorIsSound(h: Heap, want: nat)
    requires HeapOk(h) && CursorLowest(h.chunks, h.lfree)
    ensures Search(h.chunks, IndexOf(h.chunks, h.lfree), want, h.memSize) == Search(h.chunks, 0, want, h.memSize)
  {
    TilingSorted(h.chunks, 0, h.End());
    var k := IndexOf(h.chunks, h.lfree);
    forall i | 0 <= i < k ensures h.chunks[i].used {
      if k < |h.chunks| {
        assert h.chunks[i].end <= h.chunks[k].start;
      }
      CursorAtEnd(h);
    }
    SearchSkips(h.chunks, 0, k, want, h.memSize);
  }

  lemma {:induction false} CursorAtEnd(h: Heap)
    requires HeapOk(h)
    ensures IndexOf(h.chunks, h.lfree) == |h.chunks| <==> h.lfree == h.End()
    ensures forall i | 0 <= i < |h.chunks| :: h.chunks[i].start < h.End()
  {
    TilingSorted(h.chunks, 0, h.End());
    if h.lfree != h.End() {
      var c :| c in h.chunks && !c.used && c.start == h.lfree;
      var k :| 0 <= k < |h.chunks| && h.chunks[k] == c;
      IndexOfStart(h.chunks, 0, h.End(), k);
    }
  }

  /** The free chunk has room, and it is not an exact fit whose end is the end of the heap. */
  predicate Usable(h: Heap, c: Chunk, want: nat) {
    !c.used && want <= c.Payload() && !(c.Payload() == want && c.end == h.End())
  }

  lemma {:induction false} FitsIsUsable(h: Heap, c: Chunk, want: nat)
    requires HeapOk(h) && c in h.chunks
    ensures Fits(c, want, h.memSize) <==> Usable(h, c, want)
  {
    TilingSorted(h.chunks, 0, h.End());
  }

  /** The search starts at the chunk under the cursor: those below it have lower offsets. */
  lemma {:induction false} CursorIndex(h: Heap, k: nat)
    requires HeapOk(h) && k < |h.chunks|
    ensures IndexOf(h.chunks, h.lfree) <= k <==> h.lfree <= h.chunks[k].start
  {
    CursorAtEnd(h);
    TilingSorted(h.chunks, 0, h.End());
    var f := IndexOf(h.chunks, h.lfree);
    if f < |h.chunks| && f != k {
      assert if f < k then h.chunks[f].end <= h.chunks[k].start else h.chunks[k].end <= h.chunks[f].start;
    }
  }

  /**
    rt_malloc refuses a request exactly when it is zero, when it is larger than the whole heap,
    or when no free chunk at or above the cursor is usable for it.
   */
  lemma {:induction false} RefusesIff(h: Heap, size: nat)
    requires HeapOk(h)
    ensures Malloc(h, size).1 == Null <==>
            || size == 0
            || Align(size) > h.memSize
            || (forall c :: c in h.chunks && h.lfree <= c.start ==> !Usable(h, c, Want(size)))
  {
    var want := Want(size);
    var r := Search(h.chunks, IndexOf(h.chunks, h.lfree), want, h.memSize);
    hide HeapOk;
    if r < |h.chunks| {
      FitsIsUsable(h, h.chunks[r], want);
      CursorIndex(h, r);
      assert h.chunks[r] in h.chunks;
    } else {
      forall c | c in h.chunks && h.lfree <= c.start ensures !Usable(h, c, want) {
        var k: nat :| k < |h.chunks| && h.chunks[k] == c;
        CursorIndex(h, k);
        FitsIsUsable(h, c, want);
      }
    }
  }

  /** The block granted lies in the lowest usable free chunk at or above the cursor. */
  lemma {:induction false} GrantsLowest(h: Heap, size: nat, c: Chunk)
    requires HeapOk(h) && Malloc(h, size).1 != Null
    requires c in h.chunks && h.lfree <= c.start && Usable(h, c, Want(size))
    ensures Malloc(h, size).1.offset <= c.Ptr()
  {
    var want := Want(size);
    FitsIsUsable(h, c, want);
    TilingSorted(h.chunks, 0, h.End());
    var k: nat :| k < |h.chunks| && h.chunks[k] == c;
    CursorIndex(h, k);
    hide HeapOk;
    var r := Choice(h, size);
    assert r <= k;
    assert r < k ==> h.chunks[r].end <= h.chunks[k].start;
  }

  /** While the cursor is lowest, every usable chunk is at or above it. */
  lemma {:induction false} LowestSeesAll(h: Heap, size: nat)
    requires HeapOk(h) && CursorLowest(h.chunks, h.lfree)
    ensures Malloc(h, size).1 == Null <==>
            || size == 0
            || Align(size) > h.memSize
            || (forall c :: c in h.chunks ==> !Usable(h, c, Want(size)))
  {
    hide HeapOk, Malloc;
    RefusesIff(h, size);
  }

  /** The guard of the search loop: a request for all of an empty heap is refused. */
  lemma {:induction false} WholeHeapRefused(memSize: nat)
    requires MIN_SIZE <= memSize && memSize % 4 == 0 && memSize + 2 * HEADER <= WORD_LIMIT
    ensures Malloc(Init(memSize), memSize).1 == Null
    ensures memSize > MIN_SIZE ==> Malloc(Init(memSize), memSize - 4).1 != Null
  {
    hide HeapOk, Malloc;
    InitOk(memSize);
    var h := Init(memSize);
    RefusesIff(h, memSize);
    if memSize > MIN_SIZE {
      RefusesIff(h, memSize - 4);
      assert h.chunks[0] in h.chunks && Usable(h, h.chunks[0], Want(memSize - 4));
    }
  }

  // ---------------------------------------------------------------------------------
  // The cursor
  // ---------------------------------------------------------------------------------

  lemma {:induction false} NextFreeLowest(cs: seq<Chunk>, i: nat, hi: nat)
    requires Tiling(cs, 0, hi) && i <= |cs| && forall k | 0 <= k < i :: cs[k].used
    ensures CursorLowest(cs, NextFree(cs, i, hi))
    decreases |cs| - i
  {
    TilingSorted(cs, 0, hi);
    if i < |cs| && cs[i].used {
      NextFreeLowest(cs, i + 1, hi);
    }
  }

  /** rt_malloc keeps `lfree` on the lowest free chunk. */
  lemma {:induction false} MallocKeepsLowest(h: Heap, size: nat)
    requires HeapOk(h) && CursorLowest(h.chunks, h.lfree)
    ensures CursorLowest(Malloc(h, size).0.chunks, Malloc(h, size).0.lfree)
  {
    var i := Choice(h, size);
    if i < |h.chunks| {
      var want := Want(size);
      var h' := Malloc(h, size).0;
      TilingSorted(h.chunks, 0, h.End());
      AllocTiling(h, i, want);
      if h.chunks[i].start == h.lfree {
        assert forall k | 0 <= k < i :: h'.chunks[k] == h.chunks[k];
        assert forall k | 0 <= k < i :: h.chunks[k].start < h.lfree;
        NextFreeLowest(h'.chunks, i, h.End());
      } else {
        forall d | d in h'.chunks && d.start < h.lfree ensures d.used {
          SpliceMembers(h.chunks, i, i + 1, Carve(h.chunks[i], want), d);
        }
      }
    }
  }

  /** rt_free keeps `lfree` on the lowest free chunk. */
  lemma {:induction false} FreeKeepsLowest(h: Heap, p: Ptr)
    requires HeapOk(h) && (p == Null || Foreign(h, p) || IsLive(h, p)) && CursorLowest(h.chunks, h.lfree)
    ensures CursorLowest(Free(h, p).chunks, Free(h, p).lfree)
  {
    hide HeapOk, CursorLowest, FreeAt;
    if p != Null && !Foreign(h, p) {
      FreeAtKeepsLowest(h, IndexOf(h.chunks, p.offset - HEADER));
    }
  }

  lemma {:induction false} FreeAtKeepsLowest(h: Heap, i: nat)
    requires HeapOk(h) && i < |h.chunks| && h.chunks[i].used && CursorLowest(h.chunks, h.lfree)
    ensures CursorLowest(FreeAt(h, i).chunks, FreeAt(h, i).lfree)
  {
    hide Tiling;
    hide UsedSpan;
    var cs := Unmarked(h.chunks, i);
    UnmarkedTiling(h.chunks, i, h.End());
    TilingSorted(cs, 0, h.End());
    var m := Merged(cs, i);
    assert FreeAt(h, i).lfree <= m.start;
    forall d | d in Plug(cs, i) && d.start < FreeAt(h, i).lfree ensures d.used {
      SpliceMembers(cs, Lo(cs, i), Hi(cs, i), [m], d);
    }
  }

  /**
    An in-place shrink of chunk `i` leaves `lfree` on the lowest free chunk exactly when the
    cursor was below the chunk, or on the free chunk right after it.
   */
  lemma {:induction false} ShrinkLowestIff(h: Heap, i: nat, size: nat)
    requires HeapOk(h) && Cuttable(h.chunks, i, size) && CursorLowest(h.chunks, h.lfree)
    ensures CursorLowest(ShrinkAt(h, i, size).chunks, ShrinkAt(h, i, size).lfree) <==>
            h.lfree < h.chunks[i].start || (h.lfree == h.chunks[i].end && h.lfree != h.End())
  {
    hide Tiling;
    hide UsedSpan;
    var r := CutAt(h.chunks, i, size);
    var m := Merged(r, i + 1);
    var h' := ShrinkAt(h, i, size);
    CutTiling(h.chunks, i, size, h.End());
    TilingSorted(r, 0, h.End());
    TilingSorted(h.chunks, 0, h.End());
    SpliceMembers(r, Lo(r, i + 1), Hi(r, i + 1), [m], m);
    ShrinkCursorCases(h, i, size);
    if h'.lfree <= m.start {
      forall d | d in h'.chunks && d.start < h'.lfree ensures d.used {
        SpliceMembers(r, Lo(r, i + 1), Hi(r, i + 1), [m], d);
        if d in r {
          SpliceMembers(h.chunks, i, i + 1, [Shrunk(h.chunks[i], size), Remainder(h.chunks[i], size)], d);
        }
      }
    } else {
      assert m in h'.chunks && !m.used;
    }
  }

  lemma {:induction false} ShrinkCursorCases(h: Heap, i: nat, size: nat)
    requires HeapOk(h) && Cuttable(h.chunks, i, size) && CursorLowest(h.chunks, h.lfree)
    ensures
      var m := Merged(CutAt(h.chunks, i, size), i + 1);
      ShrinkAt(h, i, size).lfree <= m.start <==>
      h.lfree < h.chunks[i].start || (h.lfree == h.chunks[i].end && h.lfree != h.End())
  {
    MergedRemainder(h.chunks, i, size, h.End());
    CursorPlaces(h, i);
    TilingCut(h.chunks, 0, h.End(), i + 1);
  }

  /** What plug_holes makes of the remainder of a cut */
  lemma {:induction false} MergedRemainder(cs: seq<Chunk>, i: nat, size: nat, hi: nat)
    requires RowOk(cs, hi) && Cuttable(cs, i, size)
    ensures i + 1 < |CutAt(cs, i, size)|
    ensures
      var m := Merged(CutAt(cs, i, size), i + 1);
      && m.start == cs[i].start + HEADER + size < cs[i].end
      && m.end == (if i + 1 < |cs| && !cs[i + 1].used then cs[i + 1].end else cs[i].end) <= hi
  {
    var r := CutAt(cs, i, size);
    assert r[i] == Shrunk(cs[i], size) && r[i + 1] == Remainder(cs[i], size);
    assert i + 2 < |r| ==> r[i + 2] == cs[i + 1];
    TilingSorted(cs, 0, hi);
  }

  /** Where the cursor can be, seen from a used chunk */
  lemma {:induction false} CursorPlaces(h: Heap, i: nat)
    requires HeapOk(h) && i < |h.chunks| && h.chunks[i].used && CursorLowest(h.chunks, h.lfree)
    ensures h.lfree < h.chunks[i].start || h.chunks[i].end <= h.lfree
    ensures i + 1 < |h.chunks| && !h.chunks[i + 1].used && h.chunks[i].start < h.lfree ==>
            h.lfree == h.chunks[i + 1].start
    ensures h.lfree == h.chunks[i].end && h.lfree != h.End() ==>
            i + 1 < |h.chunks| && !h.chunks[i + 1].used
  {
    hide Tiling, UsedSpan;
    TilingSorted(h.chunks, 0, h.End());
    TilingCut(h.chunks, 0, h.End(), i + 1);
    if h.lfree != h.End() {
      var f :| f in h.chunks && !f.used && f.start == h.lfree;
      var k :| 0 <= k < |h.chunks| && h.chunks[k] == f;
      assert k != i;
    }
  }

  // A shrink that breaks the cursor.  The heap below is completely in use, so the cursor is
  // at `heap_end`; cutting the first block makes a free chunk that the cursor never sees.

  function FullHeap(): Heap {
    Heap([Chunk(0, 100, true), Chunk(100, 136, true)], 124, 136, 136, 136)
  }

  function CutFullHeap(): Heap {
    Heap([Chunk(0, 24, true), Chunk(24, 100, false), Chunk(100, 136, true)], 124, 136, 60, 136)
  }

  lemma {:induction false} FullHeapOk()
    ensures HeapOk(FullHeap()) && CursorLowest(FullHeap().chunks, FullHeap().lfree)
  {
    var a, b := Chunk(0, 100, true), Chunk(100, 136, true);
    TilingTwo(a, b);
    UsedSpanTwo(a, b);
    assert a in FullHeap().chunks;
  }

  function HalfHeap(): Heap {
    Heap([Chunk(0, 100, true), Chunk(100, 136, false)], 124, 100, 100, 100)
  }

  /** Two requests fill a new heap of 124 bytes. */
  lemma {:induction false} FullHeapReached()
    ensures Malloc(Init(124), 88) == (HalfHeap(), At(12)) && Malloc(HalfHeap(), 12) == (FullHeap(), At(112))
  {
    FirstRequest();
    SecondRequest();
  }

  lemma {:induction false} FirstRequest()
    ensures Malloc(Init(124), 88) == (HalfHeap(), At(12))
  {
    var h := Init(124);
    var c := h.chunks[0];
    assert IndexOf(h.chunks, 0) == 0;
    assert Choice(h, 88) == 0;
    assert Carve(c, 88) == HalfHeap().chunks;
    assert Splice(h.chunks, 0, 1, Carve(c, 88)) == HalfHeap().chunks;
    assert NextFree(HalfHeap().chunks, 1, 136) == 100;
    assert NextFree(HalfHeap().chunks, 0, 136) == 100;
  }

  lemma {:induction false} SecondRequest()
    ensures Malloc(HalfHeap(), 12) == (FullHeap(), At(112))
  {
    var h := HalfHeap();
    assert IndexOf(h.chunks, 100, 1) == 1;
    assert IndexOf(h.chunks, 100) == 1;
    assert Choice(h, 12) == 1;
    assert Carve(h.chunks[1], 12) == [Chunk(100, 136, true)];
    assert Splice(h.chunks, 1, 2, Carve(h.chunks[1], 12)) == FullHeap().chunks;
    assert NextFree(FullHeap().chunks, 2, 136) == 136;
    assert NextFree(FullHeap().chunks, 1, 136) == 136;
  }

  lemma {:induction false} CutFullHeapIsShrink()
    ensures ShrinkAt(FullHeap(), 0, 12) == CutFullHeap()
  {
    var h := FullHeap();
    var r := CutAt(h.chunks, 0, 12);
    assert r == CutFullHeap().chunks;
    assert Plug(r, 1) == r;
  }

  /**
    Two requests fill a new heap; shrinking the first block with rt_realloc leaves a free chunk below
    the cursor, and a 24-byte request is refused although that chunk is large enough.
   */
  lemma {:induction false} ShrinkHidesFreeChunk()
    ensures Malloc(Init(124), 88) == (HalfHeap(), At(12)) && Malloc(HalfHeap(), 12) == (FullHeap(), At(112))
    ensures HeapOk(FullHeap()) && CursorLowest(FullHeap().chunks, FullHeap().lfree) && IsLive(FullHeap(), At(12))
    ensures Realloc(FullHeap(), At(12), 12) == (CutFullHeap(), At(12))
    ensures HeapOk(CutFullHeap()) && !CursorLowest(CutFullHeap().chunks, CutFullHeap().lfree)
    ensures Malloc(CutFullHeap(), 24).1 == Null
    ensures exists c :: c in CutFullHeap().chunks && Usable(CutFullHeap(), c, Want(24))
  {
    var h, h' := FullHeap(), CutFullHeap();
    hide HeapOk, ShrinkAt;
    FullHeapReached();
    FullHeapOk();
    assert IndexOf(h.chunks, 0) == 0;
    CutFullHeapIsShrink();
    ShrinkAtKeepsHeap(h, 0, 12);
    CutFullHeapRefuses();
  }

  lemma {:induction false} CutFullHeapRefuses()
    requires HeapOk(CutFullHeap())
    ensures !CursorLowest(CutFullHeap().chunks, CutFullHeap().lfree)
    ensures Malloc(CutFullHeap(), 24).1 == Null
    ensures exists c :: c in CutFullHeap().chunks && Usable(CutFullHeap(), c, Want(24))
  {
    hide HeapOk;
    var h' := CutFullHeap();
    var c := h'.chunks[1];
    assert c in h'.chunks && !c.used && Usable(h', c, Want(24));
    CursorAtEnd(h');
  }

  // ---------------------------------------------------------------------------------
  // Runs
  // ---------------------------------------------------------------------------------

  datatype Op = MallocOp(size: nat) | FreeOp(p: Ptr) | ReallocOp(q: Ptr, newSize: nat)

  /** What the allocator asks of its caller: free and realloc get null or a live pointer. */
  predicate Legal(h: Heap, op: Op) {
    match op
    case MallocOp(_) => true
    case FreeOp(p) => p == Null || Foreign(h, p) || IsLive(h, p)
    case ReallocOp(p, _) => p == Null || Foreign(h, p) || IsLive(h, p)
  }

  function Step(h: Heap, op: Op): Heap
    requires Legal(h, op)
  {
    match op
    case MallocOp(size) => Malloc(h, size).0
    case FreeOp(p) => Free(h, p)
    case ReallocOp(p, size) => Realloc(h, p, size).0
  }

  predicate LegalRun(h: Heap, ops: seq<Op>)
    decreases |ops|
  {
    ops == [] || (Legal(h, ops[0]) && LegalRun(Step(h, ops[0]), ops[1..]))
  }

  function Run(h: Heap, ops: seq<Op>): Heap
    requires LegalRun(h, ops)
    decreases |ops|
  {
    if ops == [] then h else Run(Step(h, ops[0]), ops[1..])
  }

  lemma {:induction false} StepKeepsHeap(h: Heap, op: Op)
    requires HeapOk(h) && Legal(h, op)
    ensures HeapOk(Step(h, op)) && Step(h, op).memSize == h.memSize
  {
    match op
    case MallocOp(size) => MallocKeepsHeap(h, size);
    case FreeOp(p) => FreeKeepsHeap(h, p);
    case ReallocOp(p, size) => ReallocKeepsHeap(h, p, size);
  }

  /** Every run of malloc, free and realloc keeps the heap well formed. */
  lemma {:induction false} RunKeepsHeap(h: Heap, ops: seq<Op>)
    requires HeapOk(h) && LegalRun(h, ops)
    ensures HeapOk(Run(h, ops)) && Run(h, ops).memSize == h.memSize
    decreases |ops|
  {
    if ops != [] {
      StepKeepsHeap(h, ops[0]);
      RunKeepsHeap(Step(h, ops[0]), ops[1..]);
    }
  }

  lemma {:induction false} StepKeepsLowest(h: Heap, op: Op)
    requires HeapOk(h) && Legal(h, op) && CursorLowest(h.chunks, h.lfree) && !op.ReallocOp?
    ensures CursorLowest(Step(h, op).chunks, Step(h, op).lfree)
  {
    match op
    case MallocOp(size) => MallocKeepsLowest(h, size);
    case FreeOp(p) => FreeKeepsLowest(h, p);
  }

  /** Every run of malloc and free keeps `lfree` on the lowest free chunk. */
  lemma {:induction false} RunKeepsLowest(h: Heap, ops: seq<Op>)
    requires HeapOk(h) && LegalRun(h, ops) && CursorLowest(h.chunks, h.lfree)
    requires forall op :: op in ops ==> !op.ReallocOp?
    ensures CursorLowest(Run(h, ops).chunks, Run(h, ops).lfree)
    decreases |ops|
  {
    if ops != [] {
      StepKeepsHeap(h, ops[0]);
      assert ops[0] in ops;
      StepKeepsLowest(h, ops[0]);
      RunKeepsLowest(Step(h, ops[0]), ops[1..]);
    }
  }

  /** The most bytes in use at any moment of one call */
  function StepPeak(h: Heap, op: Op): int
    requires Legal(h, op)
  {
    match op
    case MallocOp(size) => Malloc(h, size).0.usedMem
    case FreeOp(p) => h.usedMem
    case ReallocOp(p, newSize) =>
      if Align(newSize) > h.memSize || Foreign(h, p) then h.usedMem
      else if p == Null then Malloc(h, Align(newSize)).0.usedMem
      else
        var c := h.chunks[IndexOf(h.chunks, p.offset - HEADER)];
        if PathOf(h.memSize, c.Payload(), newSize) == Move then Malloc(h, Align(newSize)).0.usedMem
        else h.usedMem
  }

  function RunPeak(h: Heap, ops: seq<Op>): int
    requires LegalRun(h, ops)
    decreases |ops|
  {
    if ops == [] then h.usedMem else Max(StepPeak(h, ops[0]), RunPeak(Step(h, ops[0]), ops[1..]))
  }

  lemma {:induction false} MallocPeak(h: Heap, size: nat)
    requires HeapOk(h)
    ensures Malloc(h, size).0.maxMem == Max(h.maxMem, Malloc(h, size).0.usedMem)
    ensures h.usedMem <= Malloc(h, size).0.usedMem
  {
    var i := Choice(h, size);
    if i < |h.chunks| {
      TilingCut(h.chunks, 0, h.End(), i);
    }
  }

  lemma {:induction false} HeapPeak(h: Heap)
    requires HeapOk(h)
    ensures h.usedMem <= h.maxMem
  {
  }

  lemma {:induction false} StepPeakIsMax(h: Heap, op: Op)
    requires HeapOk(h) && Legal(h, op)
    ensures Step(h, op).maxMem == Max(h.maxMem, StepPeak(h, op))
  {
    hide HeapOk, AllocAt, Malloc;
    match op
    case MallocOp(size) => MallocPeak(h, size);
    case FreeOp(p) => HeapPeak(h);
    case ReallocOp(p, size) => MallocPeak(h, Align(size)); HeapPeak(h);
  }

  /** `max_mem` is the highest value `used_mem` has had: at the start or during any call. */
  lemma {:induction false} MaxMemIsRunningMaximum(h: Heap, ops: seq<Op>)
    requires HeapOk(h) && LegalRun(h, ops)
    ensures Run(h, ops).maxMem == Max(h.maxMem, RunPeak(h, ops))
    decreases |ops|
  {
    if ops != [] {
      StepKeepsHeap(h, ops[0]);
      StepPeakIsMax(h, ops[0]);
      MaxMemIsRunningMaximum(Step(h, ops[0]), ops[1..]);
    }
  }

  /** With nothing live, the heap is back in its initial state but for `max_mem`. */
  lemma {:induction false} EmptyIsInitial(h: Heap)
    requires HeapOk(h) && Live(h.chunks) == {}
    ensures h == Init(h.memSize).(maxMem := h.maxMem)
  {
    var cs := h.chunks;
    forall c | c in cs ensures !c.used {
      assert c !in Live(cs);
    }
    assert |cs| > 1 ==> cs[0].used || cs[1].used;
    NoUsedSpan(cs);
    assert |cs| == 1;
    TilingCut(cs, 0, h.End(), 1);
    assert cs == [Chunk(0, h.End(), false)];
    assert h.lfree != h.End();
  }

  function FreeAll(ptrs: seq<Chunk>): seq<Op> {
    seq(|ptrs|, i requires 0 <= i < |ptrs| => FreeOp(At(ptrs[i].Ptr())))
  }

  /** Freeing the live blocks one by one, in any order, restores the single initial chunk. */
  lemma {:induction false} FullRecovery(h: Heap, order: seq<Chunk>)
    requires HeapOk(h)
    requires forall i, j | 0 <= i < j < |order| :: order[i] != order[j]
    requires forall c :: c in order <==> c in Live(h.chunks)
    ensures LegalRun(h, FreeAll(order))
    ensures Run(h, FreeAll(order)) == Init(h.memSize).(maxMem := h.maxMem)
    decreases |order|
  {
    if order == [] {
      assert Live(h.chunks) == {};
      EmptyIsInitial(h);
    } else {
      var c := order[0];
      assert c in order;
      FreeRemovesOne(h, c);
      FreeKeepsHeap(h, At(c.Ptr()));
      FullRecovery(Free(h, At(c.Ptr())), order[1..]);
      assert FreeAll(order)[1..] == FreeAll(order[1..]);
    }
  }

  // ---------------------------------------------------------------------------------
  // Heaps below the smallest size
  // ---------------------------------------------------------------------------------

  /** The search loop's guard on 32-bit unsigned numbers */
  predicate Searches(offset: nat, memSize: nat, want: nat) {
    offset < (memSize - want) % WORD_LIMIT
  }

  /** The offset the search moves on to; heap_end links to itself */
  function After(h: Heap, offset: nat): nat {
    var i := IndexOf(h.chunks, offset);
    if i < |h.chunks| then h.chunks[i].end else h.End()
  }

  /** The block that pass `k` of the search looks at */
  function Visited(h: Heap, k: nat): nat {
    if k == 0 then h.lfree else After(h, Visited(h, k - 1))
  }

  /** The search stops at this offset with a block; heap_end is marked used. */
  predicate Found(h: Heap, offset: nat, want: nat) {
    var i := IndexOf(h.chunks, offset);
    i < |h.chunks| && !h.chunks[i].used && want <= h.chunks[i].Payload()
  }

  /** The size check comes before the request is raised to the minimum, so the guard's difference can be negative. */
  lemma {:induction false} GuardWrapsIff(memSize: nat, size: nat)
    requires memSize + 2 * HEADER <= WORD_LIMIT && Align(size) <= memSize
    ensures (memSize - Want(size)) % WORD_LIMIT != memSize - Want(size) <==> memSize < MIN_SIZE
  {
  }

  /**
    A heap of 4 or 8 bytes never answers a request that passes the size check: no pass of the
    search finds a block, and the guard lets every pass through.
   */
  lemma {:induction false} TinyHeapNeverAnswers(memSize: nat, size: nat, k: nat)
    requires memSize == 4 || memSize == 8
    requires 0 < size && Align(size) <= memSize
    ensures
      var h := Init(memSize);
      && Searches(Visited(h, k), memSize, Want(size)) && !Found(h, Visited(h, k), Want(size))
      && (Visited(h, k) == 0 || Visited(h, k) == h.End())
  {
    GuardWrapsIff(memSize, size);
    if k > 0 {
      TinyHeapNeverAnswers(memSize, size, k - 1);
    }
  }
}

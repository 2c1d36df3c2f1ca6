/** What a memory heap promises its callers. */
module MemHeapTheorems {
  import opened Sequences
  import opened Rings
  import opened SmallHeapSpec
  import opened SmallHeapProofs
  import opened MemHeapSpec
  import opened MemHeapProofs
  import SmallHeapTheorems

  lemma {:induction false} BlocksApart(m: Pool, c: Chunk, d: Chunk)
    requires PoolOk(m) && c in m.chunks && d in m.chunks && c != d
    ensures c.end <= d.start || d.end <= c.start
  {
    TilingSorted(m.chunks, 0, m.Tail());
    var i :| 0 <= i < |m.chunks| && m.chunks[i] == c;
    var j :| 0 <= j < |m.chunks| && m.chunks[j] == d;
    assert i < j || j < i;
  }

  lemma {:induction false} TakeLive(m: Pool, i: nat, j: nat, want: nat)
    requires PoolOk(m) && i < |m.chunks| && j < |m.free| && !m.chunks[i].used
    ensures
      var taken := Parts(m.chunks[i], want)[0];
      taken !in Live(m.chunks) && Live(TakeAt(m, i, j, want).chunks) == Live(m.chunks) + {taken}
  {
    var c := m.chunks[i];
    var mid := Parts(c, want);
    var cs := TakeAt(m, i, j, want).chunks;
    TilingSorted(m.chunks, 0, m.Tail());
    hide Tiling, FreeStarts, FreeBytes, TakeEntry;
    assert m.chunks[i..i + 1] == [c];
    forall d ensures d in Live(cs) <==> d in Live(m.chunks) + {mid[0]} {
      SpliceMembers(m.chunks, i, i + 1, mid, d);
      assert d in mid && d.used ==> d == mid[0];
    }
  }

  /**
    A successful rt_memheap_alloc adds one new used block, aligned, before the tail, large
    enough for the rounded request and less than a header and a smallest block larger,
    apart from every live block.
   */
  lemma {:induction false} AllocAddsOne(m: Pool, size: nat) returns (c: Chunk)
    requires PoolOk(m) && Alloc(m, size).1 != Null
    ensures c !in Live(m.chunks) && Live(Alloc(m, size).0.chunks) == Live(m.chunks) + {c}
    ensures Alloc(m, size).1 == At(c.start + ITEM) && c.start % 4 == 0 && c.end <= m.Tail()
    ensures MemHeapSpec.Want(size) <= Room(c) < MemHeapSpec.Want(size) + ITEM + MIN_ALLOC
    ensures forall d | d in Live(m.chunks) :: c.end <= d.start || d.end <= c.start
  {
    hide Pick, IndexOf, Tiling, FreeStarts, FreeBytes;
    var i, j := AllocPlace(m, size);
    var want := MemHeapSpec.Want(size);
    hide Alloc;
    c := Parts(m.chunks[i], want)[0];
    TakeLive(m, i, j, want);
    TilingCut(m.chunks, 0, m.Tail(), i);
    AllocKeeps(m, size);
    var t := Alloc(m, size).0;
    hide PoolOk, TakeAt;
    forall d | d in Live(m.chunks) ensures c.end <= d.start || d.end <= c.start {
      assert d in Live(t.chunks) && c in Live(t.chunks);
      BlocksApart(t, c, d);
    }
  }

  /** The granted block holds the `size` bytes asked for exactly when RT_ALIGN does not wrap. */
  lemma {:induction false} GrantHolds(m: Pool, size: nat, c: Chunk)
    requires PoolOk(m) && size < WORD_LIMIT && Alloc(m, size).1 == At(c.start + ITEM)
    requires c in Live(Alloc(m, size).0.chunks)
    ensures size <= Room(c) <==> size + 3 < WORD_LIMIT
  {
    var d := AllocAddsOne(m, size);
    AllocKeeps(m, size);
    hide Alloc;
    SameStart(Alloc(m, size).0, c, d);
    BlockBelow(Alloc(m, size).0, c);
    hide PoolOk;
    SmallHeapTheorems.AlignFacts(size);
  }

  lemma {:induction false} AlignExact(size: nat)
    requires size % 4 == 0 && size < WORD_LIMIT
    ensures Align(size) == size
  {
  }

  lemma {:induction false} SameStart(m: Pool, c: Chunk, d: Chunk)
    requires PoolOk(m) && c in m.chunks && d in m.chunks && c.start == d.start
    ensures c == d
  {
    if c != d {
      BlockBelow(m, c);
      BlockBelow(m, d);
      BlocksApart(m, c, d);
    }
  }

  lemma {:induction false} BlockBelow(m: Pool, c: Chunk)
    requires PoolOk(m) && c in m.chunks
    ensures c.start + ITEM <= c.end <= m.Tail() < WORD_LIMIT - ITEM
  {
    TilingSorted(m.chunks, 0, m.Tail());
    var i :| 0 <= i < |m.chunks| && m.chunks[i] == c;
    assert Room(c) >= 0;
  }

  /** rt_memheap_free of a live pointer removes exactly its block. */
  lemma {:induction false} FreeRemovesOne(m: Pool, c: Chunk)
    requires PoolOk(m) && c in Live(m.chunks)
    ensures MemHeapSpec.IsLive(m, At(c.start + ITEM))
    ensures
      var t := MemHeapSpec.Free(m, At(c.start + ITEM));
      PoolOk(t) && Live(t.chunks) == Live(m.chunks) - {c}
  {
    var i :| 0 <= i < |m.chunks| && m.chunks[i] == c;
    IndexOfStart(m.chunks, 0, m.Tail(), i);
    FreeAtKeeps(m, i);
    UnmarkedLive(m.chunks, i, m.Tail());
    PlugLive(Unmarked(m.chunks, i), i);
    hide PoolOk, Plug, Unmarked, FreeEntry, Live, IndexOf;
  }

  // ---------------------------------------------------------------------------------
  // When rt_memheap_alloc fails
  // ---------------------------------------------------------------------------------

  /** A free block that could hold `want` bytes */
  ghost predicate Fitting(m: Pool, want: nat) {
    exists c :: c in m.chunks && !c.used && want <= Room(c)
  }

  lemma {:induction false} FreeBytesBound(cs: seq<Chunk>)
    requires Roomy(cs)
    ensures FreeBytes(cs) >= 0
  {
    if cs != [] {
      var n := |cs| - 1;
      assert forall c | c in cs[..n] :: c in cs;
      assert cs[n] in cs;
      FreeBytesBound(cs[..n]);
    }
  }

  lemma {:induction false} RoomBound(cs: seq<Chunk>, i: nat)
    requires Roomy(cs) && i < |cs| && !cs[i].used
    ensures Room(cs[i]) <= FreeBytes(cs)
  {
    hide FreeBytes, FreeStarts;
    FreeSplice(cs, i, i + 1, []);
    FreeOne(cs[i]);
    assert cs[i..i + 1] == [cs[i]];
    assert Roomy([]);
    RoomySplice(cs, i, i + 1, []);
    hide Roomy, Splice;
    FreeBytesBound(Splice(cs, i, i + 1, []));
    FreeNone();
  }

  lemma {:induction false} PickFails(m: Pool, want: nat)
    requires PoolOk(m)
    ensures Pick(m.chunks, m.free, want) < |m.free| ==> Fitting(m, want)
    ensures want > 0 && Pick(m.chunks, m.free, want) == |m.free| ==> !Fitting(m, want)
  {
    var j := Pick(m.chunks, m.free, want);
    if j < |m.free| {
      ListedBlock(m, m.free[j]);
      assert m.chunks[IndexOf(m.chunks, m.free[j])] in m.chunks;
    } else {
      forall i | 0 <= i < |m.chunks| && !m.chunks[i].used ensures Room(m.chunks[i]) < want {
        BlockListed(m, i);
        var k :| 0 <= k < |m.free| && m.free[k] == m.chunks[i].start;
        IndexOfStart(m.chunks, 0, m.Tail(), i);
        assert RoomAt(m.chunks, m.free[k]) < want;
      }
    }
  }

  /**
    rt_memheap_alloc refuses exactly the requests that no free block can hold, and those
    that would use up available_size to the last byte.
   */
  /** A refused allocation changes nothing. */
  lemma {:induction false} RefusalKeeps(m: Pool, size: nat)
    requires Alloc(m, size).1 == Null
    ensures Alloc(m, size).0 == m
  {
  }

  lemma {:induction false} RefusesIff(m: Pool, size: nat)
    requires PoolOk(m)
    ensures var want := MemHeapSpec.Want(size); Alloc(m, size).1 == Null <==> !Fitting(m, want) || want == m.avail
  {
    var want := MemHeapSpec.Want(size);
    WantOk(size);
    hide MemHeapSpec.Want;
    PickFails(m, want);
    if Fitting(m, want) {
      FittingBound(m, want);
    }
    var j := Pick(m.chunks, m.free, want);
    if j < |m.free| {
      ListedBlock(m, m.free[j]);
    }
    hide PoolOk, Fitting, Pick, TakeAt;
  }

  lemma {:induction false} FittingBound(m: Pool, want: nat)
    requires PoolOk(m) && Fitting(m, want)
    ensures want <= m.avail
  {
    var c :| c in m.chunks && !c.used && want <= Room(c);
    var i :| 0 <= i < |m.chunks| && m.chunks[i] == c;
    hide Tiling, Coalesced, FreeStarts, FreeBytes;
    RoomBound(m.chunks, i);
  }

  /** A new pool refuses a request for all of its space, and grants any smaller one. */
  lemma {:induction false} WholePoolRefused(size: nat)
    requires 2 * ITEM + MIN_ALLOC < size < WORD_LIMIT && size % 4 == 0
    ensures Alloc(MemHeapSpec.Init(size), size - 2 * ITEM).1 == Null
    ensures Alloc(MemHeapSpec.Init(size), size - 2 * ITEM - 4).1 != Null
  {
    InitPoolOk(size);
    var m := MemHeapSpec.Init(size);
    hide PoolOk, Alloc, Align;
    AlignExact(size - 2 * ITEM);
    AlignExact(size - 2 * ITEM - 4);
    RefusesIff(m, size - 2 * ITEM);
    RefusesIff(m, size - 2 * ITEM - 4);
    assert m.chunks[0] in m.chunks;
  }

  // ---------------------------------------------------------------------------------
  // Whole runs
  // ---------------------------------------------------------------------------------

  datatype Op = AllocOp(size: nat) | FreeOp(p: Ptr)

  function Step(m: Pool, op: Op): Pool
    requires op.FreeOp? ==> MemHeapSpec.IsLive(m, op.p)
  {
    match op
    case AllocOp(size) => Alloc(m, size).0
    case FreeOp(p) => MemHeapSpec.Free(m, p)
  }

  /** rt_memheap_free only gets pointers that are live. */
  predicate LegalRun(m: Pool, ops: seq<Op>)
    decreases |ops|
  {
    ops == [] || ((ops[0].FreeOp? ==> MemHeapSpec.IsLive(m, ops[0].p)) && LegalRun(Step(m, ops[0]), ops[1..]))
  }

  function Run(m: Pool, ops: seq<Op>): Pool
    requires LegalRun(m, ops)
    decreases |ops|
  {
    if ops == [] then m else Run(Step(m, ops[0]), ops[1..])
  }

  lemma {:induction false} StepKeeps(m: Pool, op: Op)
    requires PoolOk(m) && (op.FreeOp? ==> MemHeapSpec.IsLive(m, op.p))
    ensures PoolOk(Step(m, op)) && Step(m, op).size == m.size
  {
    hide PoolOk, Splice, TakeEntry, Pick;
    match op
    case AllocOp(size) => AllocKeeps(m, size);
    case FreeOp(p) => FreeAtKeeps(m, IndexOf(m.chunks, p.offset - ITEM));
  }

  /** Every run of allocations and frees keeps the pool well formed. */
  lemma {:induction false} RunKeeps(m: Pool, ops: seq<Op>)
    requires PoolOk(m) && LegalRun(m, ops)
    ensures PoolOk(Run(m, ops)) && Run(m, ops).size == m.size
    decreases |ops|
  {
    if ops != [] {
      hide PoolOk;
      StepKeeps(m, ops[0]);
      RunKeeps(Step(m, ops[0]), ops[1..]);
    }
  }

  /** With nothing live, a pool is back in its initial state. */
  lemma {:induction false} EmptyIsInitial(m: Pool)
    requires PoolOk(m) && Live(m.chunks) == {}
    ensures m == MemHeapSpec.Init(m.size)
  {
    var cs := m.chunks;
    forall c | c in cs ensures !c.used {
      assert c !in Live(cs);
    }
    assert |cs| > 1 ==> cs[0].used || cs[1].used;
    TilingCut(cs, 0, m.Tail(), 1);
    assert cs == [Chunk(0, m.Tail(), false)];
    FreeOne(cs[0]);
    assert multiset(m.free) == multiset{0};
    OnlyOne(m.free, 0);
  }

  lemma {:induction false} OnlyOne(r: seq<nat>, x: nat)
    requires multiset(r) == multiset{x}
    ensures r == [x]
  {
    assert |r| == |multiset(r)|;
    assert r[0] in multiset(r);
  }

  function FreeAll(order: seq<Chunk>): seq<Op> {
    seq(|order|, i requires 0 <= i < |order| => FreeOp(At(order[i].start + ITEM)))
  }

  /** Freeing the live blocks one by one, in any order, restores the initial pool. */
  lemma {:induction false} FullRecovery(m: Pool, order: seq<Chunk>)
    requires PoolOk(m)
    requires forall i, j | 0 <= i < j < |order| :: order[i] != order[j]
    requires forall c :: c in order <==> c in Live(m.chunks)
    ensures LegalRun(m, FreeAll(order)) && Run(m, FreeAll(order)) == MemHeapSpec.Init(m.size)
    decreases |order|
  {
    hide PoolOk, MemHeapSpec.FreeAt, MemHeapSpec.IsLive, Live, MemHeapSpec.Alloc;
    if order == [] {
      assert Live(m.chunks) == {};
      EmptyIsInitial(m);
    } else {
      var c := order[0];
      assert c in order;
      FreeRemovesOne(m, c);
      RestOfOrder(order, Live(m.chunks));
      StepKeeps(m, FreeOp(At(c.start + ITEM)));
      assert FreeAll(order)[1..] == FreeAll(order[1..]);
      assert FreeAll(order)[0] == FreeOp(At(c.start + ITEM));
      hide FreeAll, MemHeapSpec.Free;
      FullRecovery(MemHeapSpec.Free(m, At(c.start + ITEM)), order[1..]);
    }
  }

  lemma {:induction false} RestOfOrder(order: seq<Chunk>, live: set<Chunk>)
    requires order != [] && (forall i, j | 0 <= i < j < |order| :: order[i] != order[j])
    requires forall c :: c in order <==> c in live
    ensures forall c :: c in order[1..] <==> c in live - {order[0]}
  {
    assert order == [order[0]] + order[1..];
  }
}

/** Alignment of requests, whole runs, and what is left when nothing is held. */
module SlabResults {
  import opened Rings
  import opened SlabSizes
  import opened SlabZones
  import opened PagesSpec
  import opened PageOwners
  import opened SlabSpec
  import opened SlabProofs
  import opened SlabTheorems

  // ---------------------------------------------------------------------------------
  // Alignment of power-of-two requests
  // ---------------------------------------------------------------------------------

  /** The page at which rt_malloc will find its zone or its pages, read off the state before the call */
  function BaseBefore(s: Slab, size: nat): nat {
    var zi := ZoneIndex(size);
    if size >= LimitOf(s.zoneSize) then FirstPage(s.pages, PagesFor(size))
    else if 0 <= zi < |s.lists| && s.lists[zi] != [] then s.lists[zi][0]
    else if s.parked != [] then s.parked[0]
    else FirstPage(s.pages, s.ZonePages())
  }

  /** The start of the first run of at least `n` free pages */
  function FirstPage(pages: seq<Run>, n: nat): nat {
    var i := FirstFit(pages, n);
    if i < |pages| then pages[i].start else 0
  }

  /** A small request is served from the zone at that page, with a chunk of its class. */
  lemma {:induction false} SmallBase(s: Slab, size: nat)
    requires Core(s) && 0 < size < LimitOf(s.zoneSize) && Malloc(s, size).1 != Null
    ensures
      var (t, r) := Malloc(s, size);
      var b := BaseBefore(s, size);
      Core(t) && LiveIn(t, b, r.p) && t.zones[b].size == ChunkSize(size)
  {
    MallocKeepsCore(s, size);
    MallocClass(s, size);
    CoreLists(s);
    hide Core, LimitOf, SizeOfIndex, ChunkSize, ZoneIndex, MallocListed, MallocNew, OpenZone, LiveIn;
    var zi, n := ZoneIndex(size), ChunkSize(size);
    if s.lists[zi] != [] {
      ListedAdds(s, zi);
      ListedSize(s, zi);
    } else if s.parked != [] {
      ParkedAdds(s, zi, n);
    } else {
      NewAdds(s, zi, n);
      NewFirst(s, zi, n);
    }
  }

  lemma {:induction false} NewFirst(s: Slab, zi: nat, size: nat)
    requires zi < |s.lists| && size > 0 && MallocNew(s, zi, size).1 != Null
    ensures Alloc(s.pages, s.ZonePages()).1 == Got(FirstPage(s.pages, s.ZonePages()))
  {
  }

  lemma {:induction false} LargeBase(s: Slab, size: nat)
    requires size >= LimitOf(s.zoneSize) && size > 0 && Malloc(s, size).1 != Null
    ensures Malloc(s, size).1 == At(BaseBefore(s, size) * PAGE)
  {
  }

  lemma {:induction false} SmallPowers(n: nat)
    requires PowerOfTwo(n) && n < LIMIT
    ensures n == 1 || n == 2 || n == 4 || n == 8 || n == 16 || n == 32 || n == 64 || n == 128 || n == 256 || n == 512
            || n == 1024 || n == 2048 || n == 4096 || n == 8192
    decreases n
  {
    if n > 1 {
      SmallPowers(n / 2);
    }
  }

  /** A power of two from 8 on is its own chunk size; smaller ones get 8 bytes. */
  lemma {:induction false} PowerChunk(n: nat)
    requires PowerOfTwo(n) && n < LIMIT
    ensures ChunkSize(n) == if n < 8 then 8 else n
  {
    SmallPowers(n);
    hide PowerOfTwo;
  }

  lemma {:induction false} EightAligned(p: nat, n: nat)
    requires (n == 1 || n == 2 || n == 4) && p % 8 == 0
    ensures p % n == 0
  {
    var k := p / 8;
    assert p == 8 * k;
    if n == 2 {
      assert p == 2 * (4 * k);
    } else if n == 4 {
      assert p == 4 * (2 * k);
    }
  }

  lemma {:induction false} ChunkAligned(t: Slab, b: nat, p: nat)
    requires Core(t) && LiveIn(t, b, p) && t.zones[b].size > 0 && PowerOfTwo(t.zones[b].size)
    ensures p % t.zones[b].size == 0 <==> b * PAGE % t.zones[b].size == 0
    ensures t.zones[b].size <= PAGE ==> p % t.zones[b].size == 0
  {
    var z := t.zones[b];
    assert ZoneFits(b, z, t.zoneSize);
    assert z.off == FirstOffset(z.size) && z.uindex >= 0 && p in Row(b, z, z.uindex + 1);
    hide Core, PowerOfTwo, FirstOffset, Row, ZoneFits, ZoneOk, Live;
    AlignedIff(b, z, p);
  }

  /** slab.c promises that power-of-two requests are power-of-two aligned: up to one page they are. */
  lemma {:induction false} SmallRequestsAligned(s: Slab, size: nat)
    requires Core(s) && PowerOfTwo(size) && size <= PAGE && Malloc(s, size).1 != Null
    ensures size > 0 && Malloc(s, size).1.p % size == 0
  {
    assert size > 0;
    assert PAGE < LimitOf(s.zoneSize);
    SmallBase(s, size);
    var (t, r) := Malloc(s, size);
    var b := BaseBefore(s, size);
    PowerChunk(size);
    SmallPowers(size);
    EightPower();
    hide Core, Malloc, BaseBefore, LiveIn, ChunkSize;
    ChunkAligned(t, b, r.p);
    if size < 8 {
      EightAligned(r.p, size);
    }
  }

  lemma {:induction false} EightPower()
    ensures PowerOfTwo(8)
  {
    assert PowerOfTwo(1);
    assert PowerOfTwo(2);
    assert PowerOfTwo(4);
  }

  /**
    Beyond one page a power-of-two request is aligned to its size exactly when the page that the
    state before the call assigns to it is a multiple of the request in pages.
   */
  lemma {:induction false} LargerRequestsAlignedIff(s: Slab, size: nat)
    requires Core(s) && PowerOfTwo(size) && PAGE < size <= 0xFFFF_FFFF && Malloc(s, size).1 != Null
    ensures size / PAGE > 0
    ensures Malloc(s, size).1.p % size == 0 <==> BaseBefore(s, size) % (size / PAGE) == 0
  {
    WholeNumberOfPages(size);
    var n := size / PAGE;
    PageMultiple(BaseBefore(s, size), n);
    if size >= LimitOf(s.zoneSize) {
      LargeBase(s, size);
    } else {
      SmallBase(s, size);
      PowerChunk(size);
      var (t, r) := Malloc(s, size);
      hide Core, Malloc, BaseBefore, LiveIn, ChunkSize;
      ChunkAligned(t, BaseBefore(s, size), r.p);
    }
  }

  lemma {:induction false} WholeNumberOfPages(size: nat)
    requires PowerOfTwo(size) && PAGE <= size
    ensures size == size / PAGE * PAGE && size / PAGE > 0
  {
    PagePower();
    var q := SmallerDivides(PAGE, size);
    hide PowerOfTwo;
    QuotientOf(q, PAGE);
  }

  /**
    Not every power-of-two request is power-of-two aligned: with the heap at 0x2000, the first
    request for 8192 bytes gets 0x3000.
   */
  lemma {:induction false} TwoPagesUnaligned(usage: seq<Use>)
    requires |usage| == 100
    ensures
      var s := Start(2, 100, 0x8000, usage);
      && Inv(s) && Malloc(s, 8192).1 == At(0x3000) && PowerOfTwo(8192) && 0x3000 % 8192 != 0
  {
    StartInv(2, 100, 0x8000, usage);
    PagePower();
    var pages := [Run(2, 100)];
    assert FirstFit(pages, 1) == 0;
    assert Alloc(pages, 1).0 == [Run(3, 99)];
    assert FirstFit([Run(3, 99)], 2) == 0;
    assert PagesFor(8192) == 2;
  }

  // ---------------------------------------------------------------------------------
  // Whole runs: the slab refines the set of pointers its callers hold
  // ---------------------------------------------------------------------------------

  datatype Op = DoMalloc(size: nat) | DoFree(p: Ptr)

  /** The slab and the pointers that callers hold */
  datatype World = World(s: Slab, held: set<nat>)

  /** A caller asks for a 32-bit size, and frees null or what it holds. */
  predicate Legal(w: World, op: Op) {
    match op
    case DoMalloc(size) => size <= 0xFFFF_FFFF
    case DoFree(p) => p == Null || p.p in w.held
  }

  function Next(w: World, op: Op): World {
    match op
    case DoMalloc(size) =>
      var (t, r) := Malloc(w.s, size);
      World(t, match r case Null => w.held case At(p) => w.held + {p})
    case DoFree(p) =>
      if p == Null then w else World(SlabSpec.Free(w.s, p.p), w.held - {p.p})
  }

  ghost predicate IsRun(trace: seq<World>, ops: seq<Op>) {
    && |trace| == |ops| + 1
    && forall i | 0 <= i < |ops| :: Legal(trace[i], ops[i]) && trace[i + 1] == Next(trace[i], ops[i])
  }

  /** The state after rt_system_heap_init, whatever the memusage pages contain */
  ghost predicate Begins(w: World) {
    && w.s.npages > 0 && IsZoneSize(w.s.zoneSize) && |w.s.usage| == w.s.npages
    && w == World(Start(w.s.origin, w.s.npages, w.s.zoneSize, w.s.usage), {})
  }

  /** The pointers that callers hold are exactly the live ones. */
  ghost predicate Agrees(w: World) {
    Inv(w.s) && forall p :: p in w.held <==> IsLive(w.s, p)
  }

  lemma {:induction false} StepAgrees(w: World, op: Op)
    requires Agrees(w) && Legal(w, op)
    ensures Agrees(Next(w, op))
    ensures forall p | p in w.held && p in Next(w, op).held :: BlockSize(Next(w, op).s, p) == BlockSize(w.s, p)
  {
    hide Core, OneWhole, IsLive, BlockSize, Malloc, SlabSpec.Free;
    match op
    case DoMalloc(size) =>
      MallocAddsOne(w.s, size);
      MallocKeeps(w.s, size);
    case DoFree(p) =>
      if p != Null {
        FreeRemovesOne(w.s, p.p);
        FreeKeeps(w.s, p.p);
      }
  }

  /** Over every run from start-up, the slab is well formed and its live blocks are the ones callers hold. */
  lemma {:induction false} RunAgrees(trace: seq<World>, ops: seq<Op>, k: nat)
    requires IsRun(trace, ops) && Begins(trace[0]) && k < |trace|
    ensures Agrees(trace[k])
  {
    if k == 0 {
      var s := trace[0].s;
      StartInv(s.origin, s.npages, s.zoneSize, s.usage);
      hide Inv, IsLive;
    } else {
      hide Agrees, Next, Legal, Begins;
      RunAgrees(trace, ops, k - 1);
      StepAgrees(trace[k - 1], ops[k - 1]);
      assert trace[k - 1 + 1] == Next(trace[k - 1], ops[k - 1]);
    }
  }

  /** At every point of every run, the blocks that callers hold share no byte. */
  lemma {:induction false} HeldBlocksApart(trace: seq<World>, ops: seq<Op>, k: nat, p: nat, q: nat)
    requires IsRun(trace, ops) && Begins(trace[0]) && k < |trace|
    requires p in trace[k].held && q in trace[k].held && p != q
    ensures var s := trace[k].s; p + BlockSize(s, p) <= q || q + BlockSize(s, q) <= p
  {
    RunAgrees(trace, ops, k);
    hide Core, BlockSize, IsLive;
    LiveApart(trace[k].s, p, q);
  }

  // ---------------------------------------------------------------------------------
  // When nothing is held
  // ---------------------------------------------------------------------------------

  /** The zone at `b` covers page `p`. */
  predicate Covers(s: Slab, b: nat, p: nat) {
    b in s.zones && b <= p < b + s.ZonePages()
  }

  ghost predicate InZone(s: Slab, p: nat) {
    exists b :: Covers(s, b, p)
  }

  /** The zones in use: neither parked nor given back */
  function Serving(s: Slab): set<nat> {
    set b | b in s.zones && b !in s.parked
  }

  /**
    When nothing is held, every page is free but those of the memusage table and of a few empty
    zones: at most two that are parked and at most one for each of the 72 size classes.
   */
  lemma {:induction false} NothingHeld(s: Slab)
    requires Inv(s) && forall p :: !IsLive(s, p)
    ensures forall b | b in s.zones :: Whole(s.zones[b])
    ensures forall p: nat | s.origin <= p < s.origin + s.npages ::
      IsFree(s.pages, p) <==> !Holds(s.owned, s.table, p) && !InZone(s, p)
    ensures |s.parked| <= RELEASE_THRESH && |Serving(s)| <= NZONES
  {
    forall b | b in s.zones ensures Whole(s.zones[b]) && s.zones[b].zi < NZONES {
      EmptyZone(s, b);
    }
    forall p: nat | s.origin <= p < s.origin + s.npages
      ensures IsFree(s.pages, p) <==> !Holds(s.owned, s.table, p) && !InZone(s, p)
    {
      FreePageIff(s, p);
    }
    hide Core, IsLive;
    FewClasses(s, Serving(s), NZONES);
  }

  lemma {:induction false} EmptyZone(s: Slab, b: nat)
    requires Core(s) && b in s.zones && forall p :: !IsLive(s, p)
    ensures Whole(s.zones[b]) && s.zones[b].zi < NZONES
  {
    var z := s.zones[b];
    assert ZoneFits(b, z, s.zoneSize);
    LiveCount(b, z, s.zoneSize);
    hide Core, ZoneOk;
    forall p ensures p !in Live(b, z) {
      assert !IsLive(s, p);
      assert p in Live(b, z) ==> LiveIn(s, b, p);
    }
    assert Live(b, z) == {};
  }

  lemma {:induction false} NoLarge(s: Slab, b: nat)
    requires b in s.owned && !IsLive(s, b * PAGE)
    ensures b == s.table || b in s.zones
  {
    assert b * PAGE / PAGE == b && b * PAGE % PAGE == 0;
    hide Live;
    assert !LargeAt(s, b * PAGE);
  }

  lemma {:induction false} FreePageIff(s: Slab, p: nat)
    requires Core(s) && s.origin <= p < s.origin + s.npages && forall q :: !IsLive(s, q)
    ensures IsFree(s.pages, p) <==> !Holds(s.owned, s.table, p) && !InZone(s, p)
  {
    assert Taken(s.pages, s.owned) && OwnersOk(s);
    if IsFree(s.pages, p) {
      hide Core, IsFree, IsLive;
      forall b ensures !Holds(s.owned, b, p) {
        assert b in s.owned ==> NoneFree(s.pages, b, s.owned[b]);
      }
      forall b ensures !Covers(s, b, p) {
        assert b in s.zones ==> !Holds(s.owned, b, p);
      }
    } else {
      assert Held(s.owned, p);
      hide Core, IsFree, IsLive;
      var b :| Holds(s.owned, b, p);
      NoLarge(s, b);
      assert b in s.zones ==> Covers(s, b, p);
    }
  }

  /** Whole zones that serve have different size classes. */
  lemma {:induction false} FewClasses(s: Slab, a: set<nat>, n: nat)
    requires OneWhole(s.zones, s.parked) && a <= Serving(s)
    requires forall b | b in a :: b in s.zones && Whole(s.zones[b]) && s.zones[b].zi < n
    ensures |a| <= n
    decreases n
  {
    if n == 0 {
      assert a == {};
    } else {
      var rest := set b | b in a && s.zones[b].zi < n - 1;
      FewClasses(s, rest, n - 1);
      if b :| b in a && s.zones[b].zi == n - 1 {
        forall c | c in a ensures c in rest + {b} {
          assert c in Serving(s) && b in Serving(s);
        }
        assert a <= rest + {b};
        SubsetSize(a, rest + {b});
      } else {
        assert a == rest;
      }
    }
  }

  lemma {:induction false} SubsetSize(a: set<nat>, b: set<nat>)
    requires a <= b
    ensures |a| <= |b|
  {
    assert b == a + (b - a);
  }
}

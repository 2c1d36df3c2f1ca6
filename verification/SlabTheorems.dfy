/** What the slab promises its callers. */
module SlabTheorems {
  import opened Rings
  import opened SlabSizes
  import opened SlabZones
  import opened PagesSpec
  import opened PageOwners
  import opened SlabSpec
  import opened SlabProofs

  // ---------------------------------------------------------------------------------
  // From a pointer to its block
  // ---------------------------------------------------------------------------------

  lemma {:induction false} PageOf(p: nat, b: nat, n: nat)
    requires b * PAGE <= p < (b + n) * PAGE
    ensures b <= p / PAGE < b + n
  {
  }

  /** A live chunk lies in its zone, after the header. */
  lemma {:induction false} ChunkInside(s: Slab, b: nat, p: nat)
    requires Core(s) && LiveIn(s, b, p)
    ensures s.zones[b].size > 0
    ensures b * PAGE + ZONE_HEADER <= p && p + s.zones[b].size <= (b + s.ZonePages()) * PAGE
  {
    var z := s.zones[b];
    assert ZoneFits(b, z, s.zoneSize);
    hide ZoneOk, Live, Spread, ListsOk, UsageOk, OwnersOk, ParkedOk, SizeOfIndex, FirstOffset, IsZoneSize;
    LiveInside(b, z, s.zoneSize, p);
    WholePages(s.zoneSize);
  }

  lemma {:induction false} WholePages(zoneSize: nat)
    requires IsZoneSize(zoneSize)
    ensures zoneSize == zoneSize / PAGE * PAGE
  {
  }

  /** memusage leads a live chunk to its zone, which owns the pages it lies in. */
  lemma {:induction false} ChunkHome(s: Slab, b: nat, p: nat)
    requires Core(s) && LiveIn(s, b, p)
    ensures Holds(s.owned, b, p / PAGE)
    ensures UseOf(s.origin, s.usage, p / PAGE) == Small(p / PAGE - b)
    ensures BlockSize(s, p) == s.zones[b].size > 0
    ensures b * PAGE + ZONE_HEADER <= p && p + BlockSize(s, p) <= (b + s.ZonePages()) * PAGE
  {
    ChunkInside(s, b, p);
    PageOf(p, b, s.ZonePages());
    hide ListsOk, ParkedOk, Live, IsZoneSize, ZonesOk, Spread;
    assert b in s.owned && s.owned[b] == s.ZonePages();
    assert UseOf(s.origin, s.usage, p / PAGE) == Small(p / PAGE - b);
  }

  /** memusage leads a large block to its page count. */
  lemma {:induction false} LargeHome(s: Slab, p: nat)
    requires Core(s) && LargeAt(s, p)
    ensures Holds(s.owned, p / PAGE, p / PAGE)
    ensures UseOf(s.origin, s.usage, p / PAGE) == Large(s.owned[p / PAGE])
    ensures BlockSize(s, p) == s.owned[p / PAGE] * PAGE > 0
  {
    assert Inside(s.owned, s.origin, s.origin + s.npages);
    hide ListsOk, ParkedOk, ZonesOk, Spread;
  }

  /** A pointer is live in one zone only, and is not also a large block. */
  lemma {:induction false} OneHome(s: Slab, b: nat, p: nat)
    requires Core(s) && LiveIn(s, b, p)
    ensures !LargeAt(s, p)
    ensures forall c | LiveIn(s, c, p) :: c == b
  {
    assert Apart(s.owned);
    hide Core, Live, BlockSize;
    ChunkHome(s, b, p);
    if LargeAt(s, p) {
      LargeHome(s, p);
      assert false;
    }
    forall c | LiveIn(s, c, p) ensures c == b {
      ChunkHome(s, c, p);
      OneOwner(s.owned, b, c, p / PAGE);
    }
  }

  /** Two live blocks share no byte. */
  lemma {:induction false} LiveApart(s: Slab, p: nat, q: nat)
    requires Core(s) && IsLive(s, p) && IsLive(s, q) && p != q
    ensures p + BlockSize(s, p) <= q || q + BlockSize(s, q) <= p
  {
    hide Core, Live, BlockSize, LiveIn, LargeAt;
    if LargeAt(s, p) {
      LargeSpan(s, p);
      LiveSpan(s, q, p / PAGE);
    } else if LargeAt(s, q) {
      LargeSpan(s, q);
      LiveSpan(s, p, q / PAGE);
    } else {
      var b :| LiveIn(s, b, p);
      if LiveIn(s, b, q) {
        SameZoneApart(s, b, p, q);
      } else {
        var c :| LiveIn(s, c, q);
        ZoneSpansApart(s, b, c, p, q);
      }
    }
  }

  lemma {:induction false} LargeSpan(s: Slab, p: nat)
    requires Core(s) && LargeAt(s, p)
    ensures p / PAGE in s.owned && p == p / PAGE * PAGE && p + BlockSize(s, p) == (p / PAGE + s.owned[p / PAGE]) * PAGE
    ensures IsLarge(s, p / PAGE)
  {
    hide Core, BlockSize;
    LargeHome(s, p);
  }

  /** A live block stays out of the pages of a large block that starts elsewhere. */
  lemma {:induction false} LiveSpan(s: Slab, q: nat, b: nat)
    requires Core(s) && IsLive(s, q) && IsLarge(s, b) && q != b * PAGE
    ensures q + BlockSize(s, q) <= b * PAGE || (b + s.owned[b]) * PAGE <= q
  {
    assert Apart(s.owned);
    assert OwnersOk(s);
    hide Core, BlockSize, Live, Apart, LiveIn;
    if LargeAt(s, q) {
      LargeSpan(s, q);
      SpansApart(s.owned, q / PAGE, b);
    } else {
      var c :| LiveIn(s, c, q);
      ChunkHome(s, c, q);
      assert c in s.zones && s.owned[c] == s.ZonePages() by {
        assert Holds(s.owned, c, q / PAGE);
        assert LiveIn(s, c, q);
        InZones(s, c, q);
      }
      SpansApart(s.owned, c, b);
    }
  }

  lemma {:induction false} InZones(s: Slab, c: nat, q: nat)
    requires LiveIn(s, c, q)
    ensures c in s.zones
  {
  }

  lemma {:induction false} SpansApart(owned: map<nat, nat>, b: nat, c: nat)
    requires Apart(owned) && b in owned && c in owned && b != c
    ensures (b + owned[b]) * PAGE <= c * PAGE || (c + owned[c]) * PAGE <= b * PAGE
  {
  }

  lemma {:induction false} SameZoneApart(s: Slab, b: nat, p: nat, q: nat)
    requires Core(s) && LiveIn(s, b, p) && LiveIn(s, b, q) && p != q
    ensures p + BlockSize(s, p) <= q || q + BlockSize(s, q) <= p
  {
    ChunkHome(s, b, p);
    ChunkHome(s, b, q);
    var z := s.zones[b];
    assert ZoneFits(b, z, s.zoneSize);
    hide ListsOk, ParkedOk, UsageOk, OwnersOk, Spread, SizeOfIndex, FirstOffset, BlockSize, Row;
    RowApart(b, z, z.uindex + 1, p, q);
  }

  lemma {:induction false} ZoneSpansApart(s: Slab, b: nat, c: nat, p: nat, q: nat)
    requires Core(s) && LiveIn(s, b, p) && LiveIn(s, c, q) && b != c
    ensures p + BlockSize(s, p) <= q || q + BlockSize(s, q) <= p
  {
    ChunkHome(s, b, p);
    ChunkHome(s, c, q);
    assert Apart(s.owned) && s.owned[b] == s.ZonePages() && s.owned[c] == s.ZonePages();
    hide Core, BlockSize, Live, Apart;
    SpansApart(s.owned, b, c);
  }

  // ---------------------------------------------------------------------------------
  // Who holds what after rt_malloc
  // ---------------------------------------------------------------------------------

  /** One more live chunk, in zone `b` */
  ghost predicate AddedSmall(s: Slab, t: Slab, b: nat, p: nat) {
    && !LiveIn(s, b, p)
    && (forall c, q :: LiveIn(t, c, q) <==> LiveIn(s, c, q) || (c == b && q == p))
    && (forall c, q | LiveIn(s, c, q) :: c in t.zones && t.zones[c].size == s.zones[c].size)
    && SameLarge(s, t)
  }

  ghost predicate SameLarge(s: Slab, t: Slab) {
    && (forall c :: IsLarge(t, c) <==> IsLarge(s, c))
    && (forall c | IsLarge(s, c) :: t.owned[c] == s.owned[c])
  }

  /** The live pointers of `t` are those of `s` and `p`, and the others keep their sizes. */
  ghost predicate Gains(s: Slab, t: Slab, p: nat) {
    && !IsLive(s, p)
    && (forall q :: IsLive(t, q) <==> IsLive(s, q) || q == p)
    && (forall q | IsLive(s, q) :: BlockSize(t, q) == BlockSize(s, q))
  }

  lemma {:induction false} SizeKept(s: Slab, t: Slab, q: nat)
    requires Core(s) && Core(t) && IsLive(s, q)
    requires forall c | LiveIn(s, c, q) :: LiveIn(t, c, q) && t.zones[c].size == s.zones[c].size
    requires forall c | IsLarge(s, c) :: IsLarge(t, c) && t.owned[c] == s.owned[c]
    ensures BlockSize(t, q) == BlockSize(s, q)
  {
    hide Core, BlockSize, Live;
    if LargeAt(s, q) {
      LargeHome(s, q);
      LargeHome(t, q);
    } else {
      var c :| LiveIn(s, c, q);
      ChunkHome(s, c, q);
      ChunkHome(t, c, q);
    }
  }

  lemma {:induction false} AddedGains(s: Slab, t: Slab, b: nat, p: nat)
    requires Core(s) && Core(t) && AddedSmall(s, t, b, p)
    ensures Gains(s, t, p) && BlockSize(t, p) == t.zones[b].size
  {
    hide Core, BlockSize, LiveIn;
    assert LiveIn(t, b, p);
    OneHome(t, b, p);
    ChunkHome(t, b, p);
    forall q ensures IsLive(t, q) <==> IsLive(s, q) || q == p {
      assert LargeAt(t, q) <==> LargeAt(s, q);
      if IsLive(s, q) && !LargeAt(s, q) {
        var c :| LiveIn(s, c, q);
        assert LiveIn(t, c, q);
      }
    }
    forall q | IsLive(s, q) ensures BlockSize(t, q) == BlockSize(s, q) {
      SizeKept(s, t, q);
    }
  }

  lemma {:induction false} ListedAdds(s: Slab, zi: nat)
    requires Core(s) && zi < NZONES && s.lists[zi] != []
    ensures s.lists[zi][0] in s.zones
    ensures
      var (t, r) := MallocListed(s, zi);
      var b := s.lists[zi][0];
      AddedSmall(s, t, b, r.p) && t.zones[b].zi == zi && t.zones[b].size == s.zones[b].size
  {
    HeadIsZone(s.zones, s.lists, s.parked, zi);
    var b := s.lists[zi][0];
    assert ZoneFits(b, s.zones[b], s.zoneSize);
    GrabOk(b, s.zones[b], s.zoneSize);
    hide Core, ZoneFits, Live, Grab, AddedSmall;
    var (t, r) := MallocListed(s, zi);
    SwapAdds(s, t, b, r.p);
  }

  lemma {:induction false} SwapAdds(s: Slab, t: Slab, b: nat, p: nat)
    requires b in s.zones && b in t.zones && t.zones == s.zones[b := t.zones[b]]
    requires t.owned == s.owned && t.table == s.table && t.zones[b].size == s.zones[b].size
    requires p !in Live(b, s.zones[b]) && Live(b, t.zones[b]) == Live(b, s.zones[b]) + {p}
    ensures AddedSmall(s, t, b, p)
  {
    hide Live;
  }

  lemma {:induction false} OpenAdds(s: Slab, u: Slab, zi: nat, size: nat, b: nat)
    requires zi < |u.lists| && IsZoneSize(s.zoneSize) && 8 <= size <= LimitOf(s.zoneSize)
    requires b in s.zones ==> Live(b, s.zones[b]) == {}
    requires u.zones == s.zones && u.zoneSize == s.zoneSize && u.table == s.table
    requires (b in s.zones && u.owned == s.owned) || (b !in s.owned && b != s.table && u.owned == s.owned[b := s.ZonePages()])
    ensures
      var (t, r) := OpenZone(u, zi, size, b);
      AddedSmall(s, t, b, r.p) && t.zones[b].size == size
  {
    FreshOk(b, zi, size, s.zoneSize);
    hide IsZoneSize, LimitOf, ZoneOk, Live, Addr;
  }

  lemma {:induction false} WholeIsEmpty(s: Slab, b: nat)
    requires Core(s) && b in s.zones && Whole(s.zones[b])
    ensures Live(b, s.zones[b]) == {}
  {
    assert ZoneFits(b, s.zones[b], s.zoneSize);
    LiveCount(b, s.zones[b], s.zoneSize);
  }

  lemma {:induction false} ParkedAdds(s: Slab, zi: nat, size: nat)
    requires Core(s) && zi < NZONES && s.parked != [] && 8 <= size <= LimitOf(s.zoneSize)
    ensures
      var (t, r) := MallocParked(s, zi, size);
      AddedSmall(s, t, s.parked[0], r.p) && t.zones[s.parked[0]].size == size
  {
    ParkedHead(s);
    WholeIsEmpty(s, s.parked[0]);
    hide Live, AddedSmall, LimitOf, Spread, ListsOk, UsageOk, OpenZone;
    OpenAdds(s, s.(parked := s.parked[1..]), zi, size, s.parked[0]);
  }

  lemma {:induction false} NewAdds(s: Slab, zi: nat, size: nat)
    requires Core(s) && zi < NZONES && 8 <= size <= LimitOf(s.zoneSize)
    requires MallocNew(s, zi, size).1 != Null
    ensures
      var (t, r) := MallocNew(s, zi, size);
      var b := Alloc(s.pages, s.ZonePages()).1.page;
      AddedSmall(s, t, b, r.p) && t.zones[b].size == size
  {
    NewPages(s);
    assert s.table in s.owned;
    var zp := s.ZonePages();
    var (r, g) := Alloc(s.pages, zp);
    var b := g.page;
    var u := s.(pages := r, owned := s.owned[b := zp], usage := Mark(s.origin, s.usage, b, zp, true));
    hide Live, AddedSmall, LimitOf, Spread, ListsOk, UsageOk, OpenZone, Mark, Alloc;
    OpenAdds(s, u, zi, size, b);
  }

  lemma {:induction false} LargeAdds(s: Slab, n: nat)
    requires Core(s) && MallocLarge(s, n).1 != Null
    ensures
      var (t, r) := MallocLarge(s, n);
      && r.p % PAGE == 0 && t.zones == s.zones && t.owned == s.owned[r.p / PAGE := n] && t.table == s.table
      && r.p / PAGE !in s.owned && IsLarge(t, r.p / PAGE) && n > 0
  {
    TakeSpan(s.pages, s.owned, s.origin, s.origin + s.npages, n);
    hide Spread, ListsOk, ZonesOk, UsageOk, ParkedOk, Alloc;
  }

  lemma {:induction false} LargeGains(s: Slab, n: nat)
    requires Core(s) && MallocLarge(s, n).1 != Null
    ensures var (t, r) := MallocLarge(s, n); Gains(s, t, r.p) && BlockSize(t, r.p) == n * PAGE
  {
    LargeKeeps(s, n);
    LargeAdds(s, n);
    var (t, r) := MallocLarge(s, n);
    hide Core, BlockSize, Live, MallocLarge;
    LargeHome(t, r.p);
    assert forall c, q :: LiveIn(t, c, q) <==> LiveIn(s, c, q);
    forall q ensures LargeAt(t, q) <==> LargeAt(s, q) || q == r.p {
    }
    if c :| LiveIn(s, c, r.p) {
      OneHome(t, c, r.p);
      assert false;
    }
    forall q | IsLive(s, q) ensures BlockSize(t, q) == BlockSize(s, q) {
      SizeKept(s, t, q);
    }
  }

  /**
    rt_malloc: a null result changes nothing; otherwise the result is a block nobody held,
    large enough, and every other live block stays.
   */
  lemma {:induction false} MallocAddsOne(s: Slab, size: nat)
    requires Core(s) && size <= 0xFFFF_FFFF
    ensures
      var (t, r) := Malloc(s, size);
      if r == Null then t == s else Core(t) && Gains(s, t, r.p) && BlockSize(t, r.p) >= size
  {
    MallocKeepsCore(s, size);
    hide Core, LimitOf, SizeOfIndex, ChunkSize, ZoneIndex, MallocListed, MallocNew, MallocLarge, Gains, BlockSize, AddedSmall, PagesFor;
    if size == 0 {
    } else if size >= LimitOf(s.zoneSize) {
      if MallocLarge(s, PagesFor(size)).1 != Null {
        LargeGains(s, PagesFor(size));
        LargeAdds(s, PagesFor(size));
        PagesForEnough(size);
      } else {
        LargeNull(s, PagesFor(size));
      }
    } else {
      MallocSmallAdds(s, size);
    }
  }

  lemma {:induction false} LargeNull(s: Slab, n: nat)
    requires MallocLarge(s, n).1 == Null
    ensures MallocLarge(s, n).0 == s
  {
    hide Alloc;
  }

  lemma {:induction false} NewNull(s: Slab, zi: nat, size: nat)
    requires zi < |s.lists| && size > 0 && MallocNew(s, zi, size).1 == Null
    ensures MallocNew(s, zi, size).0 == s && Alloc(s.pages, s.ZonePages()).1 == Nothing
  {
    hide Alloc;
  }

  /** 32-bit rounding never yields fewer bytes, except when it yields none at all. */
  lemma {:induction false} PagesForEnough(size: nat)
    requires size <= 0xFFFF_FFFF
    ensures PagesFor(size) == 0 || PagesFor(size) * PAGE >= size
    ensures PagesFor(size) == 0 <==> size == 0 || size > 0xFFFF_F000
  {
    var q := (size + 4095) / 4096;
    assert RoundUp(size, PAGE) == q * 4096;
  }

  lemma {:induction false} MallocSmallAdds(s: Slab, size: nat)
    requires Core(s) && 0 < size < LimitOf(s.zoneSize)
    ensures
      var (t, r) := Malloc(s, size);
      if r == Null then t == s else Gains(s, t, r.p) && BlockSize(t, r.p) >= size
  {
    MallocKeepsCore(s, size);
    MallocClass(s, size);
    CoreLists(s);
    hide Core, LimitOf, SizeOfIndex, ChunkSize, ZoneIndex, MallocListed, MallocNew, Gains, BlockSize, AddedSmall, OpenZone;
    var zi, n := ZoneIndex(size), ChunkSize(size);
    var (t, r) := Malloc(s, size);
    if s.lists[zi] != [] {
      ListedAdds(s, zi);
      ListedSize(s, zi);
      AddedGains(s, t, s.lists[zi][0], r.p);
    } else if s.parked != [] {
      ParkedAdds(s, zi, n);
      AddedGains(s, t, s.parked[0], r.p);
    } else if r == Null {
      NewNull(s, zi, n);
    } else {
      NewAdds(s, zi, n);
      AddedGains(s, t, Alloc(s.pages, s.ZonePages()).1.page, r.p);
    }
  }

  lemma {:induction false} ListedSize(s: Slab, zi: nat)
    requires Core(s) && zi < NZONES && s.lists[zi] != []
    ensures s.lists[zi][0] in s.zones && s.zones[s.lists[zi][0]].size == SizeOfIndex(zi)
  {
    HeadIsZone(s.zones, s.lists, s.parked, zi);
    assert ZoneFits(s.lists[zi][0], s.zones[s.lists[zi][0]], s.zoneSize);
    hide ListsOk, UsageOk, Spread, SizeOfIndex, ZoneOk;
  }

  // ---------------------------------------------------------------------------------
  // Who holds what after rt_free
  // ---------------------------------------------------------------------------------

  /** One chunk fewer in zone `b`; zones without live chunks may come and go. */
  ghost predicate RemovedSmall(s: Slab, t: Slab, b: nat, p: nat) {
    && (forall c, q :: LiveIn(t, c, q) <==> LiveIn(s, c, q) && !(c == b && q == p))
    && (forall c, q | LiveIn(t, c, q) :: c in s.zones && t.zones[c].size == s.zones[c].size)
    && SameLarge(s, t)
  }

  /** The live pointers of `t` are those of `s` without `p`, and they keep their sizes. */
  ghost predicate Loses(s: Slab, t: Slab, p: nat) {
    && (forall q :: IsLive(t, q) <==> IsLive(s, q) && q != p)
    && (forall q | IsLive(t, q) :: BlockSize(t, q) == BlockSize(s, q))
  }

  lemma {:induction false} RemovedLoses(s: Slab, t: Slab, b: nat, p: nat)
    requires Core(s) && Core(t) && LiveIn(s, b, p) && RemovedSmall(s, t, b, p)
    ensures Loses(s, t, p)
  {
    hide Core, BlockSize, LiveIn;
    OneHome(s, b, p);
    forall q ensures IsLive(t, q) <==> IsLive(s, q) && q != p {
      assert LargeAt(t, q) <==> LargeAt(s, q);
      if IsLive(s, q) && q != p && !LargeAt(s, q) {
        var c :| LiveIn(s, c, q);
        assert LiveIn(t, c, q);
      }
    }
    forall q | IsLive(t, q) ensures BlockSize(t, q) == BlockSize(s, q) {
      SizeKept(t, s, q);
    }
  }

  lemma {:induction false} PutBackRemoves(s: Slab, b: nat, p: nat)
    requires Core(s) && LiveIn(s, b, p)
    ensures s.zones[b].zi < |s.lists| && RemovedSmall(s, PutBack(s, b, p), b, p)
  {
    PutBackKeeps(s, b, p);
    CoreLists(s);
    assert ZoneFits(b, s.zones[b], s.zoneSize);
    PutOk(b, s.zones[b], s.zoneSize, p);
    hide Core, Live, ZoneOk, ZoneFits, RemovedSmall;
    SwapRemoves(s, PutBack(s, b, p), b, p);
  }

  lemma {:induction false} SwapRemoves(s: Slab, t: Slab, b: nat, p: nat)
    requires b in s.zones && b in t.zones && t.zones == s.zones[b := t.zones[b]]
    requires t.owned == s.owned && t.table == s.table && t.zones[b].size == s.zones[b].size
    requires Live(b, t.zones[b]) == Live(b, s.zones[b]) - {p}
    ensures RemovedSmall(s, t, b, p)
  {
    hide Live;
  }

  lemma {:induction false} ReleaseSame(s: Slab, t: Slab, b: nat, p: nat)
    requires Core(t) && t.parked != [] && RemovedSmall(s, t, b, p)
    ensures RemovedSmall(s, Release(t), b, p)
  {
    ParkedHead(t);
    var a, u := t.parked[0], Release(t);
    WholeIsEmpty(t, a);
    assert t.parked[0] in t.owned;
    assert u.zones == t.zones - {a} && u.owned == t.owned - {a} && u.table == t.table;
    hide Core, Live, Mark, PagesSpec.Free, Release, RemovedSmall;
    DropSame(s, t, u, a, b, p);
  }

  /** A zone without live chunks can go. */
  lemma {:induction false} DropSame(s: Slab, t: Slab, u: Slab, a: nat, b: nat, p: nat)
    requires RemovedSmall(s, t, b, p) && a in t.zones && Live(a, t.zones[a]) == {}
    requires u.zones == t.zones - {a} && u.owned == t.owned - {a} && u.table == t.table
    ensures RemovedSmall(s, u, b, p)
  {
    hide Live;
    forall c, q ensures LiveIn(u, c, q) <==> LiveIn(t, c, q) {
    }
    hide LiveIn;
    assert forall c :: IsLarge(u, c) <==> IsLarge(t, c);
  }

  lemma {:induction false} FreeSmallStep(s: Slab, b: nat, p: nat)
    requires Core(s) && LiveIn(s, b, p)
    ensures s.zones[b].zi < |s.lists|
    ensures var t := FreeSmall(s, b, p); Core(t) && RemovedSmall(s, t, b, p)
  {
    PutBackKeeps(s, b, p);
    CoreLists(s);
    PutBackRemoves(s, b, p);
    var t := PutBack(s, b, p);
    assert b in t.zones && b !in t.parked && t.zones[b].zi < |t.lists|;
    hide Core, Live, RemovedSmall, PutBack, Release;
    if ParksNow(t, b) {
      ParkKeeps(t, b);
      var u := Park(t, b);
      ParkSame(s, t, b, p);
      if |u.parked| > RELEASE_THRESH {
        ReleaseKeeps(u);
        ReleaseSame(s, u, b, p);
      }
    }
  }

  lemma {:induction false} ParkSame(s: Slab, t: Slab, b: nat, p: nat)
    requires RemovedSmall(s, t, b, p) && b in t.zones && t.zones[b].zi < |t.lists|
    ensures RemovedSmall(s, Park(t, b), b, p)
  {
    hide Live, Unlink;
    var u := Park(t, b);
    assert forall c, q :: LiveIn(u, c, q) <==> LiveIn(t, c, q);
    assert forall c :: IsLarge(u, c) <==> IsLarge(t, c);
  }

  lemma {:induction false} FreeLargeLoses(s: Slab, p: nat)
    requires Core(s) && LargeAt(s, p)
    ensures var t := FreeLarge(s, p / PAGE, s.owned[p / PAGE]); Core(t) && Loses(s, t, p)
  {
    var b := p / PAGE;
    FreeLargeKeeps(s, b);
    LargeHome(s, p);
    var t := FreeLarge(s, b, s.owned[b]);
    assert t.owned == s.owned - {b} && t.zones == s.zones && t.table == s.table;
    hide Core, BlockSize, Live, FreeLarge;
    assert forall c, q :: LiveIn(t, c, q) <==> LiveIn(s, c, q);
    forall q ensures LargeAt(t, q) <==> LargeAt(s, q) && q != p {
    }
    if c :| LiveIn(s, c, p) {
      OneHome(s, c, p);
      assert false;
    }
    forall q | IsLive(t, q) ensures BlockSize(t, q) == BlockSize(s, q) {
      SizeKept(t, s, q);
    }
  }

  /** rt_free of a live pointer removes exactly that block. */
  lemma {:induction false} FreeRemovesOne(s: Slab, p: nat)
    requires Core(s) && IsLive(s, p)
    ensures Core(SlabSpec.Free(s, p)) && Loses(s, SlabSpec.Free(s, p), p)
  {
    hide Core, Live, FreeSmall, FreeLarge, Loses, RemovedSmall, BlockSize, LiveIn;
    if LargeAt(s, p) {
      LargeHome(s, p);
      FreeLargeLoses(s, p);
    } else {
      var b :| LiveIn(s, b, p);
      ChunkHome(s, b, p);
      InZones(s, b, p);
      FreeSmallStep(s, b, p);
      RemovedLoses(s, FreeSmall(s, b, p), b, p);
    }
  }

  // ---------------------------------------------------------------------------------
  // How many empty zones are kept
  // ---------------------------------------------------------------------------------

  /** A zone that is not whole joins or changes; no class gains a second whole zone. */
  lemma {:induction false} OneWholeStep(s: Slab, t: Slab, b: nat)
    requires OneWhole(s.zones, s.parked)
    requires b in t.zones && (Whole(t.zones[b]) ==> b in t.parked)
    requires forall c | c != b && c in t.zones :: c in s.zones && t.zones[c] == s.zones[c]
    requires forall c | c != b :: c in t.parked <==> c in s.parked
    ensures OneWhole(t.zones, t.parked)
  {
  }

  lemma {:induction false} MallocSmallKeepsWhole(s: Slab, size: nat)
    requires Inv(s) && 0 < size < LimitOf(s.zoneSize)
    ensures var t := Malloc(s, size).0; OneWhole(t.zones, t.parked) && |t.parked| <= RELEASE_THRESH
  {
    MallocClass(s, size);
    CoreLists(s);
    var zi, n := ZoneIndex(size), ChunkSize(size);
    var (t, r) := Malloc(s, size);
    if s.lists[zi] != [] {
      ListedNotWhole(s, zi);
      hide Core, OneWhole, SizeOfIndex, LimitOf, ChunkSize, ZoneIndex, Grab;
      OneWholeStep(s, t, s.lists[zi][0]);
    } else if s.parked != [] {
      ParkedHead(s);
      FreshOk(s.parked[0], zi, n, s.zoneSize);
      hide Core, OneWhole, SizeOfIndex, LimitOf, ChunkSize, ZoneIndex, Fresh, Live, ZoneOk, NoDup;
      OneWholeStep(s, t, s.parked[0]);
    } else if r != Null {
      var b := Alloc(s.pages, s.ZonePages()).1.page;
      FreshOk(b, zi, n, s.zoneSize);
      hide Core, OneWhole, SizeOfIndex, LimitOf, ChunkSize, ZoneIndex, Fresh, Live, ZoneOk, Alloc, Mark;
      OneWholeStep(s, t, b);
    } else {
      NewNull(s, zi, n);
    }
  }

  lemma {:induction false} ListedNotWhole(s: Slab, zi: nat)
    requires Core(s) && zi < NZONES && s.lists[zi] != []
    ensures s.lists[zi][0] in s.zones && !Whole(Grab(s.lists[zi][0], s.zones[s.lists[zi][0]]).0)
  {
    HeadIsZone(s.zones, s.lists, s.parked, zi);
    var b := s.lists[zi][0];
    assert ZoneFits(b, s.zones[b], s.zoneSize);
    GrabOk(b, s.zones[b], s.zoneSize);
    hide Core, Grab, ZoneOk, Live;
    LiveCount(b, Grab(b, s.zones[b]).0, s.zoneSize);
  }

  /** rt_malloc keeps the whole invariant. */
  lemma {:induction false} MallocKeeps(s: Slab, size: nat)
    requires Inv(s)
    ensures Inv(Malloc(s, size).0)
  {
    MallocKeepsCore(s, size);
    if 0 < size < LimitOf(s.zoneSize) {
      MallocSmallKeepsWhole(s, size);
    }
    hide Core, OneWhole, LimitOf, MallocNew, MallocListed, MallocParked, ZoneIndex, ChunkSize, Alloc;
  }

  /** A zone that stays on its list when it becomes whole is the only one there. */
  lemma {:induction false} StaysAlone(s: Slab, b: nat, c: nat)
    requires Core(s) && b in s.zones && c in s.zones && b !in s.parked && c !in s.parked && b != c
    requires s.zones[b].zi == s.zones[c].zi && Whole(s.zones[b]) && Whole(s.zones[c])
    ensures s.zones[b].zi < |s.lists| && ParksNow(s, b)
  {
    assert ZoneFits(b, s.zones[b], s.zoneSize) && ZoneFits(c, s.zones[c], s.zoneSize);
    var zi := s.zones[b].zi;
    var l := s.lists[zi];
    assert Listed(s.zones, s.parked, zi, b) && Listed(s.zones, s.parked, zi, c);
    assert multiset(l)[b] == 1 && multiset(l)[c] == 1;
    assert b in multiset(l) && c in multiset(l);
    hide Core, ZoneFits;
    assert Position(l, b) + 1 == |l| && l[0] == b ==> l == [b];
  }

  lemma {:induction false} FreeSmallKeepsWhole(s: Slab, b: nat, p: nat)
    requires Inv(s) && LiveIn(s, b, p)
    ensures s.zones[b].zi < |s.lists|
    ensures var t := FreeSmall(s, b, p); OneWhole(t.zones, t.parked) && |t.parked| <= RELEASE_THRESH
  {
    hide Core, Live, Park, Release, OneWhole, Position;
    PutBackKeeps(s, b, p);
    CoreLists(s);
    var t := PutBack(s, b, p);
    if ParksNow(t, b) {
      ParkKeepsWhole(s, t, b);
    } else {
      AloneKeepsWhole(s, t, b);
    }
  }

  lemma {:induction false} ParkKeepsWhole(s: Slab, t: Slab, b: nat)
    requires OneWhole(s.zones, s.parked) && |s.parked| <= RELEASE_THRESH && t.parked == s.parked
    requires b in t.zones && t.zones[b].zi < |t.lists| && s.zones.Keys == t.zones.Keys
    requires forall c | c != b && c in t.zones :: t.zones[c] == s.zones[c]
    ensures
      var u := Park(t, b);
      var v := if |u.parked| > RELEASE_THRESH then Release(u) else u;
      OneWhole(v.zones, v.parked) && |v.parked| <= RELEASE_THRESH
  {
    hide OneWhole, Mark, PagesSpec.Free, Unlink;
    var u := Park(t, b);
    OneWholeStep(s, u, b);
    if |u.parked| > RELEASE_THRESH {
      DropKeepsWhole(s, Release(u));
    }
  }

  lemma {:induction false} DropKeepsWhole(s: Slab, t: Slab)
    requires OneWhole(s.zones, s.parked) && t.parked == s.parked
    requires forall c | c in t.zones :: c in s.zones && t.zones[c] == s.zones[c]
    ensures OneWhole(t.zones, t.parked)
  {
  }

  lemma {:induction false} AloneKeepsWhole(s: Slab, t: Slab, b: nat)
    requires OneWhole(s.zones, s.parked) && Core(t) && b in t.zones && b !in t.parked
    requires t.zones[b].zi < |t.lists| && !ParksNow(t, b)
    requires forall c | c != b && c in t.zones :: c in s.zones && t.zones[c] == s.zones[c]
    requires t.parked == s.parked
    ensures OneWhole(t.zones, t.parked)
  {
    hide Core, ParksNow;
    forall c | c in t.zones && c !in t.parked && c != b && t.zones[c].zi == t.zones[b].zi
      ensures !(Whole(t.zones[b]) && Whole(t.zones[c]))
    {
      if Whole(t.zones[b]) && Whole(t.zones[c]) {
        StaysAlone(t, b, c);
        assert false;
      }
    }
  }

  lemma {:induction false} FreeLargeZones(s: Slab, b: nat, n: nat)
    ensures FreeLarge(s, b, n).zones == s.zones && FreeLarge(s, b, n).parked == s.parked
  {
  }

  /** rt_free of a live pointer keeps the whole invariant. */
  lemma {:induction false} FreeKeeps(s: Slab, p: nat)
    requires Inv(s) && IsLive(s, p)
    ensures Inv(SlabSpec.Free(s, p))
  {
    assert Core(s);
    hide Core, Live, FreeSmall, FreeLarge, BlockSize, LiveIn, OneWhole, UseOf, Loses, IsZoneSize;
    FreeRemovesOne(s, p);
    if LargeAt(s, p) {
      LargeHome(s, p);
      FreeLargeZones(s, p / PAGE, s.owned[p / PAGE]);
    } else {
      FreeChunkKeeps(s, p);
    }
  }

  lemma {:induction false} FreeChunkKeeps(s: Slab, p: nat)
    requires Inv(s) && IsLive(s, p) && !LargeAt(s, p)
    ensures var t := SlabSpec.Free(s, p); OneWhole(t.zones, t.parked) && |t.parked| <= RELEASE_THRESH
  {
    assert Core(s);
    hide Inv, Core, Live, FreeSmall, LiveIn, OneWhole, SlabSpec.Free;
    var b :| LiveIn(s, b, p);
    InZones(s, b, p);
    FreeSmallKeepsWhole(s, b, p);
    FreeOfChunk(s, b, p);
  }

  lemma {:induction false} FreeOfChunk(s: Slab, b: nat, p: nat)
    requires Core(s) && LiveIn(s, b, p) && b in s.zones && s.zones[b].zi < |s.lists|
    ensures SlabSpec.Free(s, p) == FreeSmall(s, b, p)
  {
    hide Core, Live, FreeSmall, FreeLarge, LiveIn, UseOf;
    ChunkHome(s, b, p);
  }

  // ---------------------------------------------------------------------------------
  // Start, failure, alignment, whole runs
  // ---------------------------------------------------------------------------------

  /** rt_system_heap_init makes an empty slab whatever memusage held before. */
  lemma {:induction false} StartInv(origin: nat, npages: nat, zoneSize: nat, usage: seq<Use>)
    requires npages > 0 && IsZoneSize(zoneSize) && |usage| == npages
    ensures var s := Start(origin, npages, zoneSize, usage); Inv(s) && forall p :: !IsLive(s, p)
  {
    var n := RoundUp(npages * 4, PAGE) / PAGE;
    assert 0 < n <= npages;
    var pages := [Run(origin, npages)];
    StartSpread(origin, npages);
    assert FirstFit(pages, n) == 0;
    TakeSpan(pages, map[], origin, origin + npages, n);
    var s := Start(origin, npages, zoneSize, usage);
    assert s.owned == map[][s.table := n];
    hide Alloc, Spread, IsZoneSize;
    assert ListsOk(s.zones, s.lists, s.parked);
    assert forall b :: !IsLarge(s, b);
  }

  lemma {:induction false} StartSpread(origin: nat, npages: nat)
    requires npages > 0
    ensures Spread([Run(origin, npages)], map[], origin, origin + npages)
  {
    var pages := [Run(origin, npages)];
    forall p: nat ensures IsFree(pages, p) <==> origin <= p < origin + npages {
      FreeOne(Run(origin, npages), p);
    }
  }

  /**
    rt_malloc returns null exactly for size 0, for a size whose rounding wraps to 0, when no
    run of free pages is long enough, and, for a small size, only if in addition every zone of
    the class is full and none is parked.
   */
  lemma {:induction false} MallocFailsIff(s: Slab, size: nat)
    requires Core(s) && size <= 0xFFFF_FFFF
    ensures
      Malloc(s, size).1 == Null <==>
      || size == 0
      || (size >= LimitOf(s.zoneSize) && (size > 0xFFFF_F000 || forall a: nat :: !AllFree(s.pages, a, PagesFor(size))))
      || (size < LimitOf(s.zoneSize) && ClassFull(s, ZoneIndex(size)) && s.parked == []
          && forall a: nat :: !AllFree(s.pages, a, s.ZonePages()))
  {
    hide Spread, AllFree, PagesFor, ListsOk, UsageOk, OwnersOk, ZonesOk, ParkedOk, ClassFull;
    if size >= LimitOf(s.zoneSize) {
      PagesForEnough(size);
      LargeFailsIff(s, PagesFor(size));
    } else if size > 0 {
      MallocClass(s, size);
      CoreLists(s);
      FullIff(s, ZoneIndex(size));
      NewFailsIff(s, ZoneIndex(size), ChunkSize(size));
      hide ZoneIndex, ChunkSize, SizeOfIndex, LimitOf, IsZoneSize, MallocNew;
    }
  }

  ghost predicate ClassFull(s: Slab, zi: int) {
    forall b | b in s.zones && s.zones[b].zi == zi && b !in s.parked :: s.zones[b].nfree <= 0
  }

  lemma {:induction false} FullIff(s: Slab, zi: nat)
    requires Core(s) && zi < NZONES
    ensures s.lists[zi] == [] <==> ClassFull(s, zi)
    ensures s.lists[zi] != [] ==> s.lists[zi][0] in s.zones
  {
    HeadIsZone(s.zones, s.lists, s.parked, zi);
    if s.lists[zi] == [] {
      forall b | b in s.zones && s.zones[b].zi == zi && b !in s.parked ensures s.zones[b].nfree <= 0 {
        assert multiset(s.lists[zi])[b] == 0;
        assert !Listed(s.zones, s.parked, zi, b);
      }
    }
  }

  lemma {:induction false} LargeFailsIff(s: Slab, n: nat)
    requires Core(s)
    ensures MallocLarge(s, n).1 == Null <==> n == 0 || forall a: nat :: !AllFree(s.pages, a, n)
  {
    assert Canonical(s.pages);
    if n > 0 {
      AllocFailsIff(s.pages, n);
      if Alloc(s.pages, n).1 != Nothing {
        TakeSpan(s.pages, s.owned, s.origin, s.origin + s.npages, n);
      }
    }
    hide Spread, Canonical, AllFree, ListsOk, UsageOk, OwnersOk, ZonesOk, ParkedOk, FirstFit;
  }

  lemma {:induction false} NewFailsIff(s: Slab, zi: nat, size: nat)
    requires Core(s) && zi < |s.lists| && size > 0
    ensures MallocNew(s, zi, size).1 == Null <==> forall a: nat :: !AllFree(s.pages, a, s.ZonePages())
  {
    assert Canonical(s.pages) && s.ZonePages() > 0;
    AllocFailsIff(s.pages, s.ZonePages());
    hide Core, Canonical, AllFree, Alloc;
  }

  lemma {:induction false} PageMultiple(x: nat, n: nat)
    requires n > 0
    ensures x * 4096 % (n * 4096) == 0 <==> x % n == 0
  {
    var q, r := x / n, x % n;
    assert x == q * n + r;
    PageProduct(q, n);
    QuotientAndRest(q, r * 4096, n * 4096);
  }

  lemma {:induction false} PageProduct(q: nat, n: nat)
    ensures q * n * 4096 == q * (n * 4096)
  {
  }
}

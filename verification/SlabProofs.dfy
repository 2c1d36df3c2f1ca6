/** Every operation of the slab keeps its invariant. */
module SlabProofs {
  import opened Rings
  import opened SlabSizes
  import opened SlabZones
  import opened PagesSpec
  import opened PageOwners
  import opened SlabSpec

  /** One zone and one list change; every other zone keeps its place. */
  lemma {:induction false} ListsStep(s: Slab, t: Slab, zi: nat, b: nat)
    requires ListsOk(s.zones, s.lists, s.parked) && zi < NZONES && |t.lists| == NZONES
    requires forall k | 0 <= k < NZONES && k != zi :: t.lists[k] == s.lists[k]
    requires forall c | c != b :: c in t.zones <==> c in s.zones
    requires forall c | c != b && c in s.zones :: t.zones[c] == s.zones[c]
    requires forall c | c != b :: c in t.parked <==> c in s.parked
    requires forall c | c != b :: multiset(t.lists[zi])[c] == multiset(s.lists[zi])[c]
    requires multiset(t.lists[zi])[b] == if Listed(t.zones, t.parked, zi, b) then 1 else 0
    requires forall k | k != zi :: !Listed(s.zones, s.parked, k, b) && !Listed(t.zones, t.parked, k, b)
    ensures ListsOk(t.zones, t.lists, t.parked)
  {
    forall k, c | 0 <= k < NZONES
      ensures multiset(t.lists[k])[c] == if Listed(t.zones, t.parked, k, c) then 1 else 0
    {
      assert multiset(s.lists[k])[c] == if Listed(s.zones, s.parked, k, c) then 1 else 0;
    }
  }

  /** The number of entries of a list, whose first is `b` */
  lemma {:induction false} HeadCount(l: seq<nat>)
    requires l != []
    ensures multiset(l) == multiset(l[1..]) + multiset{l[0]}
  {
    assert l == [l[0]] + l[1..];
  }

  // ---------------------------------------------------------------------------------
  // rt_malloc from a listed zone
  // ---------------------------------------------------------------------------------

  lemma {:induction false} ListedKeepsLists(s: Slab, zi: nat)
    requires Core(s) && zi < NZONES && s.lists[zi] != []
    ensures s.lists[zi][0] in s.zones
    ensures var t := MallocListed(s, zi).0; ListsOk(t.zones, t.lists, t.parked)
  {
    hide Spread, UsageOk, OwnersOk, ZoneOk, SizeOfIndex, FirstOffset;
    HeadIsZone(s.zones, s.lists, s.parked, zi);
    var b := s.lists[zi][0];
    assert ZoneFits(b, s.zones[b], s.zoneSize);
    GrabOk(b, s.zones[b], s.zoneSize);
    var t := MallocListed(s, zi).0;
    HeadCount(s.lists[zi]);
    assert multiset(s.lists[zi])[b] == 1;
    hide Grab;
    ListsStep(s, t, zi, b);
  }

  lemma {:induction false} ListedKeeps(s: Slab, zi: nat)
    requires Core(s) && zi < NZONES && s.lists[zi] != []
    ensures s.lists[zi][0] in s.zones && Core(MallocListed(s, zi).0)
  {
    assert |s.lists| == NZONES;
    hide Spread, ListsOk, OwnersOk, UsageOk, Grab, ParkedOk;
    ListedKeepsLists(s, zi);
    HeadIsZone(s.zones, s.lists, s.parked, zi);
    var b := s.lists[zi][0];
    var t := MallocListed(s, zi).0;
    assert t.zones.Keys == s.zones.Keys;
    GrabKeepsFit(b, s.zones[b], s.zoneSize);
    hide ZoneFits;
    SameZoneSet(s, t);
    NewKeepsParked(s, t, b);
  }

  lemma {:induction false} GrabKeepsFit(b: nat, z: Zone, zoneSize: nat)
    requires ZoneFits(b, z, zoneSize) && z.nfree > 0
    ensures ZoneFits(b, Grab(b, z).0, zoneSize)
  {
    GrabOk(b, z, zoneSize);
    hide Grab, ZoneOk, SizeOfIndex, FirstOffset, Live;
  }

  /** Owners and memusage depend on which zones there are, not on their headers. */
  lemma {:induction false} SameZoneSet(s: Slab, t: Slab)
    requires OwnersOk(s) && UsageOk(s)
    requires t.zones.Keys == s.zones.Keys && t.owned == s.owned && t.usage == s.usage && t.origin == s.origin
    requires t.zoneSize == s.zoneSize && t.table == s.table
    ensures OwnersOk(t) && UsageOk(t)
  {
    assert forall b :: b in t.zones <==> b in s.zones;
    assert forall b :: IsLarge(t, b) <==> IsLarge(s, b);
  }

  // ---------------------------------------------------------------------------------
  // rt_malloc of whole pages
  // ---------------------------------------------------------------------------------

  lemma {:induction false} LargeKeepsUsage(s: Slab, t: Slab, b: nat, n: nat)
    requires OwnersOk(s) && UsageOk(s) && s.origin <= b < s.origin + |s.usage| && n > 0
    requires forall c | c in s.owned :: c + s.owned[c] <= b || b + n <= c
    requires b !in s.owned && t == s.(pages := t.pages, owned := s.owned[b := n], usage := s.usage[b - s.origin := Large(n)])
    ensures OwnersOk(t) && UsageOk(t)
  {
    forall c, p: nat | c in t.zones && c <= p < c + t.ZonePages()
      ensures UseOf(t.origin, t.usage, p) == Small(p - c)
    {
      assert UseOf(s.origin, s.usage, p) == Small(p - c);
    }
    forall c | IsLarge(t, c) ensures UseOf(t.origin, t.usage, c) == Large(t.owned[c]) {
      assert IsLarge(s, c) ==> UseOf(s.origin, s.usage, c) == Large(s.owned[c]);
    }
  }

  lemma {:induction false} LargeKeeps(s: Slab, n: nat)
    requires Core(s)
    ensures Core(MallocLarge(s, n).0)
  {
    hide Spread, OwnersOk, UsageOk, ListsOk, ParkedOk, ZonesOk, IsZoneSize, Alloc;
    if MallocLarge(s, n).1 != Null {
      TakeSpan(s.pages, s.owned, s.origin, s.origin + s.npages, n);
      LargeKeepsUsage(s, MallocLarge(s, n).0, Alloc(s.pages, n).1.page, n);
    }
  }

  // ---------------------------------------------------------------------------------
  // rt_malloc in a new zone
  // ---------------------------------------------------------------------------------

  /** A zone that is on no list gets a new header and comes first on its list. */
  lemma {:induction false} OpenKeepsLists(s: Slab, u: Slab, zi: nat, size: nat, b: nat)
    requires ListsOk(s.zones, s.lists, s.parked) && zi < NZONES && b !in u.parked
    requires b in s.zones ==> b in s.parked
    requires u.zones == s.zones && u.lists == s.lists && u.zoneSize == s.zoneSize
    requires forall c | c != b :: c in u.parked <==> c in s.parked
    requires IsZoneSize(s.zoneSize) && 8 <= size <= LimitOf(s.zoneSize)
    ensures var t := OpenZone(u, zi, size, b).0; ListsOk(t.zones, t.lists, t.parked)
  {
    FreshOk(b, zi, size, s.zoneSize);
    hide IsZoneSize, LimitOf, ZoneOk, Live, Addr;
    var t := OpenZone(u, zi, size, b).0;
    assert multiset(s.lists[zi])[b] == if Listed(s.zones, s.parked, zi, b) then 1 else 0;
    HeadCount(t.lists[zi]);
    assert t.lists[zi][1..] == s.lists[zi];
    assert t.zones[b].zi == zi && t.zones[b].nfree > 0;
    hide ListsOk;
    ListsStep(s, t, zi, b);
  }

  lemma {:induction false} OpenKeepsZones(s: Slab, zi: nat, size: nat, b: nat)
    requires ZonesOk(s.zones, s.zoneSize) && zi < NZONES && zi < |s.lists| && size == SizeOfIndex(zi)
    requires IsZoneSize(s.zoneSize) && 8 <= size <= LimitOf(s.zoneSize)
    ensures ZonesOk(OpenZone(s, zi, size, b).0.zones, s.zoneSize)
  {
    FreshOk(b, zi, size, s.zoneSize);
    hide IsZoneSize, LimitOf, ZoneOk, Live, Addr, SizeOfIndex;
  }

  lemma {:induction false} ParkedHead(s: Slab)
    requires ParkedOk(s.zones, s.parked) && s.parked != []
    ensures s.parked[0] in s.zones && Whole(s.zones[s.parked[0]]) && s.parked[0] !in s.parked[1..]
    ensures forall c | c != s.parked[0] :: c in s.parked[1..] <==> c in s.parked
    ensures NoDup(s.parked[1..])
  {
    assert s.parked == [s.parked[0]] + s.parked[1..];
    var b := s.parked[0];
    forall i | 0 <= i < |s.parked[1..]| ensures s.parked[1..][i] != b {
      assert s.parked[1..][i] == s.parked[i + 1];
    }
  }

  /** rt_malloc takes a parked zone over for any size class. */
  lemma {:induction false} ParkedRest(s: Slab)
    requires ParkedOk(s.zones, s.parked) && s.parked != []
    ensures ParkedOk(s.zones, s.parked[1..])
  {
  }

  lemma {:induction false} ParkedKeeps(s: Slab, zi: nat, size: nat)
    requires Core(s) && zi < NZONES && s.parked != [] && size == SizeOfIndex(zi) && 8 <= size <= LimitOf(s.zoneSize)
    ensures Core(MallocParked(s, zi, size).0)
  {
    assert |s.lists| == NZONES;
    hide Spread, SizeOfIndex, IsZoneSize, LimitOf, ListsOk, ZonesOk, OwnersOk, UsageOk, Fresh, NoDup, Whole, ParkedOk;
    ParkedHead(s);
    ParkedRest(s);
    var b := s.parked[0];
    var u := s.(parked := s.parked[1..]);
    OpenKeepsLists(s, u, zi, size, b);
    OpenKeepsZones(u, zi, size, b);
    var t := OpenZone(u, zi, size, b).0;
    assert t.zones.Keys == s.zones.Keys;
    SameZoneSet(s, t);
    NewKeepsParked(u, t, b);
  }

  /** The entries of a stretch, and all others */
  lemma {:induction false} MarkAt(s: Slab, b: nat, n: nat, zone: bool, p: nat)
    requires s.origin <= b && b + n <= s.origin + |s.usage|
    ensures
      var m := Mark(s.origin, s.usage, b, n, zone);
      && |m| == |s.usage|
      && UseOf(s.origin, m, p) == (if b <= p < b + n then (if zone then Small(p - b) else FreePage) else UseOf(s.origin, s.usage, p))
  {
  }

  /** The pages of a zone at `b` are in the heap and clear of every other stretch. */
  ghost predicate NewSpan(s: Slab, b: nat) {
    && s.ZonePages() > 0 && s.origin <= b && b + s.ZonePages() <= s.origin + |s.usage| && b !in s.owned
    && (forall c | c in s.owned :: s.owned[c] > 0)
    && (forall c | c in s.owned :: c + s.owned[c] <= b || b + s.ZonePages() <= c)
  }

  lemma {:induction false} NewKeepsUsage(s: Slab, t: Slab, b: nat)
    requires OwnersOk(s) && UsageOk(s) && NewSpan(s, b)
    requires t.zones.Keys == s.zones.Keys + {b} && t.owned == s.owned[b := s.ZonePages()]
    requires t.usage == Mark(s.origin, s.usage, b, s.ZonePages(), true) && t.origin == s.origin
    requires t.zoneSize == s.zoneSize && t.table == s.table
    ensures OwnersOk(t) && UsageOk(t)
  {
    hide Mark;
    assert forall c :: c in t.zones <==> c in s.zones || c == b;
    forall c, p: nat | c in t.zones && c <= p < c + t.ZonePages()
      ensures UseOf(t.origin, t.usage, p) == Small(p - c)
    {
      MarkAt(s, b, s.ZonePages(), true, p);
      assert c in s.zones ==> UseOf(s.origin, s.usage, p) == Small(p - c);
    }
    forall c | IsLarge(t, c) ensures UseOf(t.origin, t.usage, c) == Large(t.owned[c]) {
      MarkAt(s, b, s.ZonePages(), true, c);
      assert IsLarge(s, c);
    }
  }

  /** What the pages of a new zone bring along */
  lemma {:induction false} NewPages(s: Slab)
    requires Core(s) && Alloc(s.pages, s.ZonePages()).1 != Nothing
    ensures
      var (r, g) := Alloc(s.pages, s.ZonePages());
      && Spread(r, s.owned[g.page := s.ZonePages()], s.origin, s.origin + s.npages)
      && NewSpan(s, g.page) && g.page !in s.zones && g.page !in s.parked
  {
    TakeSpan(s.pages, s.owned, s.origin, s.origin + s.npages, s.ZonePages());
    assert Inside(s.owned, s.origin, s.origin + s.npages);
    hide Alloc, Spread, IsZoneSize, ListsOk, UsageOk;
  }

  lemma {:induction false} NewKeeps(s: Slab, zi: nat, size: nat)
    requires Core(s) && zi < NZONES && size == SizeOfIndex(zi) && 8 <= size <= LimitOf(s.zoneSize)
    ensures Core(MallocNew(s, zi, size).0)
  {
    var zp := s.ZonePages();
    var (r, g) := Alloc(s.pages, zp);
    if g != Nothing {
      NewPages(s);
      hide SizeOfIndex, LimitOf, Alloc, Spread, IsZoneSize, ListsOk, ZonesOk, UsageOk, OwnersOk, Mark, ParkedOk, OpenZone, NewSpan;
      OpenKeeps(s, s.(pages := r, owned := s.owned[g.page := zp], usage := Mark(s.origin, s.usage, g.page, zp, true)),
                zi, size, g.page);
    }
  }

  lemma {:induction false} OpenKeeps(s: Slab, u: Slab, zi: nat, size: nat, b: nat)
    requires Core(s) && zi < NZONES && size == SizeOfIndex(zi) && 8 <= size <= LimitOf(s.zoneSize)
    requires NewSpan(s, b) && b !in s.zones && b !in s.parked
    requires u == s.(pages := u.pages, owned := s.owned[b := s.ZonePages()],
                     usage := Mark(s.origin, s.usage, b, s.ZonePages(), true))
    requires Spread(u.pages, u.owned, s.origin, s.origin + s.npages)
    ensures |u.lists| == NZONES && Core(OpenZone(u, zi, size, b).0)
  {
    assert |s.lists| == NZONES;
    hide SizeOfIndex, LimitOf, Spread, IsZoneSize, ListsOk, ZonesOk, UsageOk, OwnersOk, Mark, ParkedOk, Fresh;
    MarkAt(s, b, s.ZonePages(), true, b);
    hide NewSpan;
    OpenKeepsLists(s, u, zi, size, b);
    OpenKeepsZones(u, zi, size, b);
    var t := OpenZone(u, zi, size, b).0;
    assert t == u.(zones := t.zones, lists := t.lists) && t.zones == s.zones[b := t.zones[b]];
    hide OpenZone;
    NewKeepsUsage(s, t, b);
    NewKeepsParked(s, t, b);
  }

  lemma {:induction false} NewKeepsParked(s: Slab, t: Slab, b: nat)
    requires ParkedOk(s.zones, s.parked) && b !in s.parked && t.parked == s.parked
    requires b in t.zones && t.zones == s.zones[b := t.zones[b]]
    ensures ParkedOk(t.zones, t.parked)
  {
  }

  // ---------------------------------------------------------------------------------
  // rt_malloc
  // ---------------------------------------------------------------------------------

  /** The four ways of rt_malloc; the size class fits the request. */
  lemma {:induction false} MallocClass(s: Slab, size: nat)
    requires Core(s) && 0 < size < LimitOf(s.zoneSize)
    ensures 0 <= ZoneIndex(size) < NZONES && ChunkSize(size) == SizeOfIndex(ZoneIndex(size))
    ensures 8 <= ChunkSize(size) <= LimitOf(s.zoneSize) && size <= ChunkSize(size)
  {
    hide Spread, ListsOk, ZonesOk, UsageOk, OwnersOk, ParkedOk;
    ZoneIndexOk(size);
    ChunkWithinLimit(s.zoneSize, size);
  }

  lemma {:induction false} MallocKeepsCore(s: Slab, size: nat)
    requires Core(s)
    ensures Core(Malloc(s, size).0)
  {
    hide Core, LimitOf, PagesFor, SizeOfIndex, ChunkSize, ZoneIndex, MallocListed, MallocParked, MallocNew, MallocLarge;
    if size == 0 {
    } else if size >= LimitOf(s.zoneSize) {
      LargeKeeps(s, PagesFor(size));
    } else {
      MallocClass(s, size);
      var zi, c := ZoneIndex(size), ChunkSize(size);
      CoreLists(s);
      if s.lists[zi] != [] {
        ListedKeeps(s, zi);
      } else if s.parked != [] {
        ParkedKeeps(s, zi, c);
      } else {
        NewKeeps(s, zi, c);
      }
    }
  }

  lemma {:induction false} CoreLists(s: Slab)
    requires Core(s)
    ensures |s.lists| == NZONES
  {
  }

  // ---------------------------------------------------------------------------------
  // rt_free
  // ---------------------------------------------------------------------------------

  lemma {:induction false} FreeLargeUsage(s: Slab, t: Slab, b: nat)
    requires OwnersOk(s) && UsageOk(s) && IsLarge(s, b) && Apart(s.owned)
    requires forall c | c in s.owned :: s.owned[c] > 0
    requires s.origin <= b < s.origin + |s.usage|
    requires t == s.(pages := t.pages, owned := s.owned - {b}, usage := s.usage[b - s.origin := Large(0)])
    ensures OwnersOk(t) && UsageOk(t)
  {
    assert OwnersOk(t);
    forall c, p: nat | c in t.zones && c <= p < c + t.ZonePages()
      ensures UseOf(t.origin, t.usage, p) == Small(p - c)
    {
      ZoneNotAt(s, b, c, p);
      assert UseOf(s.origin, s.usage, p) == Small(p - c);
    }
    hide Apart, OwnersOk;
    forall c | IsLarge(t, c) ensures UseOf(t.origin, t.usage, c) == Large(t.owned[c]) {
      assert IsLarge(s, c) && c != b;
      assert UseOf(t.origin, t.usage, c) == UseOf(s.origin, s.usage, c);
    }
  }

  /** No page of a zone is the first page of a large block. */
  lemma {:induction false} ZoneNotAt(s: Slab, b: nat, c: nat, p: nat)
    requires OwnersOk(s) && IsLarge(s, b) && Apart(s.owned) && s.owned[b] > 0
    requires c in s.zones && c <= p < c + s.ZonePages()
    ensures p != b
  {
    assert c in s.owned && b in s.owned && c != b;
  }

  lemma {:induction false} FreeLargeKeeps(s: Slab, b: nat)
    requires Core(s) && IsLarge(s, b)
    ensures Core(FreeLarge(s, b, s.owned[b]))
  {
    GiveSpan(s.pages, s.owned, s.origin, s.origin + s.npages, b);
    assert Inside(s.owned, s.origin, s.origin + s.npages) && Apart(s.owned);
    hide Spread, OwnersOk, UsageOk, ListsOk, ParkedOk, ZonesOk, IsZoneSize, PagesSpec.Free;
    FreeLargeUsage(s, FreeLarge(s, b, s.owned[b]), b);
  }

  lemma {:induction false} PutFits(b: nat, z: Zone, zoneSize: nat, p: nat)
    requires ZoneFits(b, z, zoneSize) && p in Live(b, z)
    ensures ZoneFits(b, Put(z, p), zoneSize) && !Whole(z)
    ensures Put(z, p).nfree == z.nfree + 1 > 0
  {
    PutOk(b, z, zoneSize, p);
    hide Live, SizeOfIndex, FirstOffset;
  }

  lemma {:induction false} PutBackKeepsLists(s: Slab, b: nat, p: nat)
    requires Core(s) && LiveIn(s, b, p)
    ensures s.zones[b].zi < NZONES
    ensures var t := PutBack(s, b, p); ListsOk(t.zones, t.lists, t.parked)
  {
    var z := s.zones[b];
    assert ZoneFits(b, z, s.zoneSize);
    PutFits(b, z, s.zoneSize, p);
    assert b !in s.parked;
    hide Spread, OwnersOk, UsageOk, ZoneOk, IsZoneSize, Live, SizeOfIndex, FirstOffset, NoDup;
    var t := PutBack(s, b, p);
    assert multiset(s.lists[z.zi])[b] == if Listed(s.zones, s.parked, z.zi, b) then 1 else 0;
    if z.nfree == 0 {
      HeadCount(t.lists[z.zi]);
      assert t.lists[z.zi][1..] == s.lists[z.zi];
    }
    ListsStep(s, t, z.zi, b);
  }

  lemma {:induction false} PutBackKeeps(s: Slab, b: nat, p: nat)
    requires Core(s) && LiveIn(s, b, p)
    ensures s.zones[b].zi < NZONES && Core(PutBack(s, b, p)) && b !in s.parked
  {
    var z := s.zones[b];
    assert ZoneFits(b, z, s.zoneSize);
    PutFits(b, z, s.zoneSize, p);
    PutBackKeepsLists(s, b, p);
    var t := PutBack(s, b, p);
    assert b !in s.parked;
    hide Spread, ListsOk, OwnersOk, UsageOk, ZoneFits, ParkedOk, IsZoneSize, Live;
    SameZoneSet(s, t);
    NewKeepsParked(s, t, b);
  }

  lemma {:induction false} ParkKeepsLists(s: Slab, b: nat)
    requires ListsOk(s.zones, s.lists, s.parked) && b in s.zones && b !in s.parked
    requires s.zones[b].zi < NZONES && s.zones[b].nfree > 0
    ensures var t := Park(s, b); ListsOk(t.zones, t.lists, t.parked)
  {
    var zi := s.zones[b].zi;
    assert Listed(s.zones, s.parked, zi, b);
    assert multiset(s.lists[zi])[b] == 1;
    assert b in multiset(s.lists[zi]);
    UnlinkCount(s.lists[zi], b);
    hide Unlink;
    ListsStep(s, Park(s, b), zi, b);
  }

  lemma {:induction false} ParkKeeps(s: Slab, b: nat)
    requires Core(s) && b in s.zones && b !in s.parked && Whole(s.zones[b])
    ensures s.zones[b].zi < NZONES && Core(Park(s, b))
  {
    assert ZoneFits(b, s.zones[b], s.zoneSize);
    ParkKeepsLists(s, b);
    var t := Park(s, b);
    hide Spread, ListsOk, ZonesOk, ZoneFits, IsZoneSize, Unlink;
    SameZoneSet(s, t);
  }

  /** An entry outside the released pages stays. */
  lemma {:induction false} ReleaseUsageAt(s: Slab, b: nat, c: nat, p: nat)
    requires Apart(s.owned) && Inside(s.owned, s.origin, s.origin + |s.usage|)
    requires b in s.owned && s.owned[b] == s.ZonePages() && c != b && Holds(s.owned, c, p)
    ensures UseOf(s.origin, Mark(s.origin, s.usage, b, s.ZonePages(), false), p) == UseOf(s.origin, s.usage, p)
  {
    hide Mark;
    assert c + s.owned[c] <= b || b + s.owned[b] <= c;
    hide Apart;
    MarkAt(s, b, s.ZonePages(), false, p);
  }

  lemma {:induction false} ReleaseUsage(s: Slab, t: Slab, b: nat)
    requires OwnersOk(s) && UsageOk(s) && Apart(s.owned) && Inside(s.owned, s.origin, s.origin + |s.usage|) && b in s.zones
    requires t.zones == s.zones - {b} && t.owned == s.owned - {b}
    requires t.usage == Mark(s.origin, s.usage, b, s.ZonePages(), false) && t.origin == s.origin
    requires t.zoneSize == s.zoneSize && t.table == s.table
    ensures OwnersOk(t) && UsageOk(t)
  {
    hide Mark, Apart, UseOf;
    forall c, p: nat | c in t.zones && c <= p < c + t.ZonePages()
      ensures UseOf(t.origin, t.usage, p) == Small(p - c)
    {
      ReleaseUsageAt(s, b, c, p);
    }
    forall c | IsLarge(t, c) ensures UseOf(t.origin, t.usage, c) == Large(t.owned[c]) {
      assert IsLarge(s, c);
      ReleaseUsageAt(s, b, c, c);
    }
  }

  lemma {:induction false} ReleaseLists(s: Slab)
    requires ListsOk(s.zones, s.lists, s.parked) && ParkedOk(s.zones, s.parked) && s.parked != []
    ensures var t := Release(s); ListsOk(t.zones, t.lists, t.parked) && ParkedOk(t.zones, t.parked)
  {
    ParkedHead(s);
    hide NoDup, Mark, PagesSpec.Free;
    var b := s.parked[0];
    assert multiset(s.lists[0])[b] == 0;
    ListsStep(s, Release(s), 0, b);
  }

  lemma {:induction false} ParkedSpan(s: Slab)
    requires Core(s) && s.parked != []
    ensures s.parked[0] in s.zones && s.parked[0] in s.owned && s.owned[s.parked[0]] == s.ZonePages()
    ensures Inside(s.owned, s.origin, s.origin + s.npages) && Apart(s.owned)
  {
    ParkedHead(s);
    hide ListsOk, ParkedOk, ZonesOk, UsageOk, IsZoneSize;
  }

  lemma {:induction false} ReleaseKeeps(s: Slab)
    requires Core(s) && s.parked != []
    ensures Core(Release(s))
  {
    hide Spread, ListsOk, ParkedOk, ZoneFits, IsZoneSize, PagesSpec.Free, OwnersOk, UsageOk, Apart, Inside, NoDup, Whole;
    var b, t := s.parked[0], Release(s);
    ParkedSpan(s);
    GiveSpan(s.pages, s.owned, s.origin, s.origin + s.npages, b);
    ReleaseLists(s);
    ReleaseUsage(s, t, b);
  }
}

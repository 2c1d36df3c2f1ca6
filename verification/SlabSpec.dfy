/**
  Which pages of the heap belong to whom.

  `owned` maps the first page of every taken stretch to its length.
 */
module PageOwners {
  import opened PagesSpec

  predicate Holds(owned: map<nat, nat>, b: nat, p: nat) {
    b in owned && b <= p < b + owned[b]
  }

  ghost predicate Held(owned: map<nat, nat>, p: nat) {
    exists b :: Holds(owned, b, p)
  }

  /** Every page from `lo` up to `hi` is free or in one stretch, and never both. */
  ghost predicate Spread(pages: seq<Run>, owned: map<nat, nat>, lo: nat, hi: nat) {
    && Canonical(pages)
    && Inside(owned, lo, hi) && Apart(owned) && Taken(pages, owned)
    && (forall p: nat | IsFree(pages, p) :: lo <= p < hi)
    && (forall p: nat | lo <= p < hi && !IsFree(pages, p) :: Held(owned, p))
  }

  ghost predicate Inside(owned: map<nat, nat>, lo: nat, hi: nat) {
    forall b | b in owned :: owned[b] > 0 && lo <= b && b + owned[b] <= hi
  }

  ghost predicate Apart(owned: map<nat, nat>) {
    forall b, c | b in owned && c in owned && b != c :: b + owned[b] <= c || c + owned[c] <= b
  }

  ghost predicate Taken(pages: seq<Run>, owned: map<nat, nat>) {
    forall b | b in owned :: NoneFree(pages, b, owned[b])
  }

  /** A page has one owner. */
  lemma {:induction false} OneOwner(owned: map<nat, nat>, b: nat, c: nat, p: nat)
    requires Apart(owned) && Holds(owned, b, p) && Holds(owned, c, p)
    ensures b == c
  {
  }

  /** What rt_page_alloc returns is a new stretch. */
  lemma {:induction false} TakeSpan(pages: seq<Run>, owned: map<nat, nat>, lo: nat, hi: nat, n: nat)
    requires Spread(pages, owned, lo, hi) && Alloc(pages, n).1 != Nothing
    ensures
      var (r, g) := Alloc(pages, n);
      && Spread(r, owned[g.page := n], lo, hi) && n > 0 && lo <= g.page && g.page + n <= hi
      && (forall b | b in owned :: b + owned[b] <= g.page || g.page + n <= b)
      && g.page !in owned
  {
    AllocTakes(pages, n);
    var (r, g) := Alloc(pages, n);
    var more := owned[g.page := n];
    hide IsFree, Canonical, Alloc;
    TakenApart(pages, owned, g.page, n);
    assert IsFree(pages, g.page) && IsFree(pages, g.page + n - 1);
    assert Taken(r, more) by {
      forall b | b in more ensures NoneFree(r, b, more[b]) {
      }
    }
    forall p: nat | lo <= p < hi && !IsFree(r, p) ensures Held(more, p) {
      if IsFree(pages, p) {
        assert Holds(more, g.page, p);
      } else {
        var b :| Holds(owned, b, p);
        assert Holds(more, b, p);
      }
    }
  }

  lemma {:induction false} TakenApart(pages: seq<Run>, owned: map<nat, nat>, a: nat, n: nat)
    requires n > 0 && Taken(pages, owned) && AllFree(pages, a, n)
    requires forall b | b in owned :: owned[b] > 0
    ensures forall b | b in owned :: b + owned[b] <= a || a + n <= b
    ensures a !in owned
  {
    hide IsFree;
    forall b | b in owned ensures b + owned[b] <= a || a + n <= b {
      assert NoneFree(pages, b, owned[b]);
      var p := if b <= a then a else b;
      assert p < a + n ==> IsFree(pages, p);
    }
  }

  /** Giving a stretch back makes its pages free and changes no other. */
  lemma {:induction false} GiveSpan(pages: seq<Run>, owned: map<nat, nat>, lo: nat, hi: nat, b: nat)
    requires Spread(pages, owned, lo, hi) && b in owned
    ensures Spread(Free(pages, b, owned[b]), owned - {b}, lo, hi)
  {
    FreeGives(pages, b, owned[b]);
    var r, less := Free(pages, b, owned[b]), owned - {b};
    hide IsFree, Canonical, Free;
    assert Taken(r, less) by {
      forall c | c in less ensures NoneFree(r, c, less[c]) {
        assert NoneFree(pages, c, owned[c]);
      }
    }
    forall p: nat | lo <= p < hi && !IsFree(r, p) ensures Held(less, p) {
      var c :| Holds(owned, c, p);
      assert Holds(less, c, p);
    }
  }
}

/**
  The slab allocator over its page allocator.

  Pages are numbered by address / 4096. Each rt_malloc and rt_free is one step.
 */
module SlabSpec {
  import opened Rings
  import opened SlabSizes
  import opened SlabZones
  import opened PagesSpec
  import opened PageOwners

  /** memusage */
  datatype Use = FreePage | Small(back: nat) | Large(count: nat)

  datatype Slab = Slab(
    origin: nat,                 // page of heap_start
    npages: nat,
    table: nat,                  // page of the memusage array
    zoneSize: nat,
    pages: seq<Run>,             // rt_page_list
    owned: map<nat, nat>,        // taken stretches
    usage: seq<Use>,             // memusage
    zones: map<nat, Zone>,
    lists: seq<seq<nat>>,        // zone_array
    parked: seq<nat>)            // zone_free
  {
    function ZonePages(): nat { zoneSize / PAGE }
  }

  datatype Ptr = Null | At(p: nat)

  const RELEASE_THRESH: nat := 2

  // ---------------------------------------------------------------------------------
  // Invariant
  // ---------------------------------------------------------------------------------

  /** btokup */
  function UseOf(origin: nat, usage: seq<Use>, p: nat): Use {
    if origin <= p < origin + |usage| then usage[p - origin] else FreePage
  }

  predicate Whole(z: Zone) { z.nfree == z.nmax }

  /** The zone header agrees with its size class. */
  ghost predicate ZoneFits(b: nat, z: Zone, zoneSize: nat) {
    && ZoneOk(b, z, zoneSize) && z.zi < NZONES
    && z.size == SizeOfIndex(z.zi) && z.off == FirstOffset(z.size)
  }

  ghost predicate ZonesOk(zones: map<nat, Zone>, zoneSize: nat) {
    forall b | b in zones :: ZoneFits(b, zones[b], zoneSize)
  }

  predicate IsLarge(s: Slab, b: nat) {
    b in s.owned && b !in s.zones && b != s.table
  }

  ghost predicate OwnersOk(s: Slab) {
    && s.table in s.owned && s.table !in s.zones
    && (forall b | b in s.zones :: b in s.owned && s.owned[b] == s.ZonePages())
  }

  /** memusage leads every page of a zone to the zone and the first page of a large block to its length. */
  ghost predicate UsageOk(s: Slab) {
    && (forall b, p: nat | b in s.zones && b <= p < b + s.ZonePages() :: UseOf(s.origin, s.usage, p) == Small(p - b))
    && (forall b | IsLarge(s, b) :: UseOf(s.origin, s.usage, b) == Large(s.owned[b]))
  }

  predicate Listed(zones: map<nat, Zone>, parked: seq<nat>, zi: nat, b: nat) {
    b in zones && zones[b].zi == zi && b !in parked && zones[b].nfree > 0
  }

  /** zone_array[zi] holds each zone of that class that is not parked and has a chunk to give, once. */
  ghost predicate ListsOk(zones: map<nat, Zone>, lists: seq<seq<nat>>, parked: seq<nat>) {
    && |lists| == NZONES
    && (forall zi, b | 0 <= zi < NZONES :: multiset(lists[zi])[b] == if Listed(zones, parked, zi, b) then 1 else 0)
  }

  ghost predicate ParkedOk(zones: map<nat, Zone>, parked: seq<nat>) {
    NoDup(parked) && forall b | b in parked :: b in zones && Whole(zones[b])
  }

  ghost predicate Core(s: Slab) {
    && IsZoneSize(s.zoneSize) && |s.usage| == s.npages
    && Spread(s.pages, s.owned, s.origin, s.origin + s.npages)
    && ZonesOk(s.zones, s.zoneSize) && OwnersOk(s) && UsageOk(s)
    && ListsOk(s.zones, s.lists, s.parked) && ParkedOk(s.zones, s.parked)
  }

  /** No size class keeps two zones without a live chunk. */
  ghost predicate OneWhole(zones: map<nat, Zone>, parked: seq<nat>) {
    forall b, c | b in zones && c in zones && b !in parked && c !in parked && b != c && zones[b].zi == zones[c].zi ::
      !(Whole(zones[b]) && Whole(zones[c]))
  }

  ghost predicate Inv(s: Slab) {
    Core(s) && |s.parked| <= RELEASE_THRESH && OneWhole(s.zones, s.parked)
  }

  /** `p` was handed out and not yet freed. */
  ghost predicate IsLive(s: Slab, p: nat) {
    (exists b :: LiveIn(s, b, p)) || LargeAt(s, p)
  }

  predicate LiveIn(s: Slab, b: nat, p: nat) {
    b in s.zones && p in Live(b, s.zones[b])
  }

  predicate LargeAt(s: Slab, p: nat) {
    p % PAGE == 0 && IsLarge(s, p / PAGE)
  }

  /** The bytes behind a live pointer, found the way rt_free finds them */
  function BlockSize(s: Slab, p: nat): nat {
    match UseOf(s.origin, s.usage, p / PAGE)
    case FreePage => 0
    case Large(n) => n * PAGE
    case Small(k) => if p / PAGE - k in s.zones then s.zones[p / PAGE - k].size else 0
  }

  // ---------------------------------------------------------------------------------
  // Operations
  // ---------------------------------------------------------------------------------

  /** RT_ALIGN(size, RT_MM_PAGE_SIZE) >> RT_MM_PAGE_BITS on 32-bit words */
  function PagesFor(size: nat): nat {
    RoundUp(size, PAGE) % 0x1_0000_0000 / PAGE
  }

  /** Entries for the pages from `b` on: a zone, or no use */
  function Mark(origin: nat, usage: seq<Use>, b: nat, n: nat, zone: bool): seq<Use> {
    seq(|usage|, i requires 0 <= i < |usage| =>
      if b - origin <= i < b - origin + n then (if zone then Small(i - (b - origin)) else FreePage) else usage[i])
  }

  function MallocLarge(s: Slab, n: nat): (Slab, Ptr) {
    var (r, g) := Alloc(s.pages, n);
    if g == Nothing || !(s.origin <= g.page < s.origin + |s.usage|) then (s, Null)
    else
      (s.(pages := r, owned := s.owned[g.page := n], usage := s.usage[g.page - s.origin := Large(n)]), At(g.page * PAGE))
  }

  /** A chunk of the zone at the head of its list */
  function MallocListed(s: Slab, zi: nat): (Slab, Ptr)
    requires zi < |s.lists| && s.lists[zi] != [] && s.lists[zi][0] in s.zones
  {
    var b := s.lists[zi][0];
    var (z, p) := Grab(b, s.zones[b]);
    (s.(zones := s.zones[b := z], lists := if z.nfree == 0 then s.lists[zi := s.lists[zi][1..]] else s.lists), At(p))
  }

  /** The first chunk of a zone made at page `b` */
  function OpenZone(s: Slab, zi: nat, size: nat, b: nat): (Slab, Ptr)
    requires zi < |s.lists| && size > 0
  {
    var z := Fresh(zi, size, s.zoneSize);
    (s.(zones := s.zones[b := z], lists := s.lists[zi := [b] + s.lists[zi]]), At(Addr(b, z, 0)))
  }

  function MallocParked(s: Slab, zi: nat, size: nat): (Slab, Ptr)
    requires zi < |s.lists| && size > 0 && s.parked != []
  {
    OpenZone(s.(parked := s.parked[1..]), zi, size, s.parked[0])
  }

  function MallocNew(s: Slab, zi: nat, size: nat): (Slab, Ptr)
    requires zi < |s.lists| && size > 0
  {
    var (r, g) := Alloc(s.pages, s.ZonePages());
    if g == Nothing then (s, Null)
    else
      var b := g.page;
      OpenZone(s.(pages := r, owned := s.owned[b := s.ZonePages()],
                  usage := Mark(s.origin, s.usage, b, s.ZonePages(), true)), zi, size, b)
  }

  /** rt_malloc */
  function Malloc(s: Slab, size: nat): (Slab, Ptr) {
    if size == 0 then (s, Null)
    else if size >= LimitOf(s.zoneSize) then MallocLarge(s, PagesFor(size))
    else MallocSmall(s, ZoneIndex(size), ChunkSize(size))
  }

  /** rt_malloc of a chunk: from a listed zone, from a parked one, or from a new one */
  function MallocSmall(s: Slab, zi: int, size: nat): (Slab, Ptr) {
    if !(0 <= zi < |s.lists|) || size == 0 then (s, Null)
    else if s.lists[zi] != [] then
      if s.lists[zi][0] in s.zones then MallocListed(s, zi) else (s, Null)
    else if s.parked != [] then MallocParked(s, zi, size)
    else MallocNew(s, zi, size)
  }

  lemma {:induction false} HeadIsZone(zones: map<nat, Zone>, lists: seq<seq<nat>>, parked: seq<nat>, zi: nat)
    requires ListsOk(zones, lists, parked) && zi < NZONES
    ensures lists[zi] != [] ==> Listed(zones, parked, zi, lists[zi][0])
  {
    if lists[zi] != [] {
      var b := lists[zi][0];
      assert b in multiset(lists[zi]);
      assert multiset(lists[zi])[b] == if Listed(zones, parked, zi, b) then 1 else 0;
    }
  }

  function FreeLarge(s: Slab, b: nat, n: nat): Slab {
    if !(s.origin <= b < s.origin + |s.usage|) then s
    else s.(pages := PagesSpec.Free(s.pages, b, n), owned := s.owned - {b}, usage := s.usage[b - s.origin := Large(0)])
  }

  /** The chunk goes to the free list of its zone, which gets back on its list if it was full. */
  function PutBack(s: Slab, b: nat, p: nat): Slab
    requires b in s.zones && s.zones[b].zi < |s.lists|
  {
    var z := s.zones[b];
    s.(zones := s.zones[b := Put(z, p)],
       lists := if z.nfree == 0 then s.lists[z.zi := [b] + s.lists[z.zi]] else s.lists)
  }

  /** A wholly free zone moves to zone_free when its class has another zone to serve from. */
  function Park(s: Slab, b: nat): Slab
    requires b in s.zones && s.zones[b].zi < |s.lists|
  {
    var zi := s.zones[b].zi;
    s.(lists := s.lists[zi := Unlink(s.lists[zi], b)], parked := [b] + s.parked)
  }

  /** More than two parked zones: the last one parked gives its pages back. */
  function Release(s: Slab): Slab
    requires s.parked != []
  {
    var b := s.parked[0];
    s.(parked := s.parked[1..], zones := s.zones - {b}, owned := s.owned - {b},
       usage := Mark(s.origin, s.usage, b, s.ZonePages(), false),
       pages := PagesSpec.Free(s.pages, b, s.ZonePages()))
  }

  predicate ParksNow(s: Slab, b: nat)
    requires b in s.zones && s.zones[b].zi < |s.lists|
  {
    var l := s.lists[s.zones[b].zi];
    Whole(s.zones[b]) && l != [] && (Position(l, b) + 1 < |l| || l[0] != b)
  }

  function FreeSmall(s: Slab, b: nat, p: nat): Slab
    requires b in s.zones && s.zones[b].zi < |s.lists|
  {
    var t := PutBack(s, b, p);
    if !ParksNow(t, b) then t
    else
      var u := Park(t, b);
      if |u.parked| > RELEASE_THRESH then Release(u) else u
  }

  /** rt_free of a pointer that is not null */
  function Free(s: Slab, p: nat): Slab {
    match UseOf(s.origin, s.usage, p / PAGE)
    case Large(n) => FreeLarge(s, p / PAGE, n)
    case Small(k) =>
      var b := p / PAGE - k;
      if b in s.zones && s.zones[b].zi < |s.lists| then FreeSmall(s, b, p) else s
    case FreePage => s
  }

  /** rt_system_heap_init, with `usage` the unset contents of the memusage pages */
  function Start(origin: nat, npages: nat, zoneSize: nat, usage: seq<Use>): Slab {
    var n := RoundUp(npages * 4, PAGE) / PAGE;
    var (r, g) := Alloc([Run(origin, npages)], n);
    var table := if g == Nothing then origin else g.page;
    Slab(origin, npages, table, zoneSize, r, map[table := n], usage, map[], seq(NZONES, i => []), [])
  }
}

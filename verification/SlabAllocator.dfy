/**
  The slab allocator in place.  Zones are linked through `link`, the z_next fields, from the 72
  heads of zone_array and from zone_free.
 */
module SlabAllocator {
  import opened Rings
  import opened Chains
  import opened SlabSizes
  import opened SlabZones
  import opened PagesSpec
  import opened PageOwners
  import opened SlabSpec
  import opened SlabProofs
  import opened SlabTheorems
  import Pages

  /** Every list of zones is what its links say. */
  ghost predicate AllLinked(link: seq<int>, heads: seq<int>, lists: seq<seq<nat>>) {
    |heads| == |lists| && forall zi | 0 <= zi < |lists| :: Linked(link, heads[zi], lists[zi])
  }

  class Allocator {
    const origin: nat
    const npages: nat
    const table: nat
    const zoneSize: nat
    const pages: Pages.PageList
    const usage: array<Use>
    const link: array<int>            // z_next
    const heads: array<int>           // zone_array
    var zoneFree: int
    var parkedCount: int
    var zones: map<nat, Zone>         // the headers, apart from z_next
    ghost var lists: seq<seq<nat>>
    ghost var parked: seq<nat>
    ghost var owned: map<nat, nat>

    ghost function View(): Slab
      reads this, pages, usage
    {
      Slab(origin, npages, table, zoneSize, pages.list, owned, usage[..], zones, lists, parked)
    }

    /** The links say what the view says, and no two arrays are the same. */
    ghost predicate Stored()
      reads this, link, heads
    {
      && heads.Length == NZONES && link.Length == origin + npages && link != heads
      && pages.next != link && pages.next != heads && pages.next.Length == origin + npages
      && AllLinked(link[..], heads[..], lists) && Linked(link[..], zoneFree, parked)
      && parkedCount == |parked|
    }

    ghost predicate Valid()
      reads this, pages, pages.next, pages.count, usage, link, heads
    {
      Inv(View()) && Stored() && pages.Valid()
    }

    /** rt_system_heap_init after the addresses are aligned; the memusage pages contain what they contain. */
    constructor (origin: nat, npages: nat, use: array<Use>)
      requires npages > 0 && use.Length == npages
      ensures Valid() && usage == use && View() == Start(origin, npages, zoneSize, use[..])
      ensures IsZoneSize(zoneSize)
      ensures zoneSize < MAX_ZONE ==> npages * PAGE / 1024 <= 2 * zoneSize
      ensures zoneSize > MIN_ZONE ==> npages * PAGE / 1024 > zoneSize
      ensures fresh(pages) && fresh(pages.next) && fresh(pages.count) && fresh(link) && fresh(heads)
      ensures forall p :: !IsLive(View(), p)
    {
      hide FirstFit, Inv, IsLive, Canonical, IsFree;
      var list := new Pages.PageList(origin, npages);
      var size := ChooseZoneSize(npages * PAGE);
      var n := RoundUp(npages * 4, PAGE) / PAGE;
      var g := list.Alloc(n);
      var at := if g == Nothing then origin else g.page;
      var first := new int[NZONES](_ => NULL);
      var next := new int[origin + npages](_ => NULL);
      this.origin, this.npages, this.table, this.zoneSize := origin, npages, at, size;
      this.pages, this.usage, this.link, this.heads := list, use, next, first;
      zoneFree, zones, parkedCount := NULL, map[], 0;
      lists, parked, owned := seq(NZONES, i => []), [], map[at := n];
      new;
      StartInv(origin, npages, size, use[..]);
      assert lists == Start(origin, npages, size, use[..]).lists;
      EmptyLinked(link[..], heads[..], lists);
    }

    /** The loops that describe or clear the pages of a zone in memusage */
    method MarkPages(b: nat, n: nat, zone: bool)
      requires origin <= b && b + n <= origin + usage.Length
      modifies usage
      ensures usage[..] == Mark(origin, old(usage[..]), b, n, zone)
    {
      ghost var was := usage[..];
      var at := b - origin;
      var i := 0;
      while i < n
        invariant i <= n
        invariant usage[..] == Mark(origin, was, b, i, zone)
      {
        usage[at + i] := if zone then Small(i) else FreePage;
        i := i + 1;
        assert usage[..] == Mark(origin, was, b, i, zone);
      }
    }

    // -------------------------------------------------------------------------------
    // Links
    // -------------------------------------------------------------------------------

    /** A zone comes first on a list. */
    method PushZone(zi: nat, b: nat)
      requires Stored() && zi < |lists| == NZONES && b < link.Length && Off(lists, parked, b)
      modifies link, heads, `lists
      ensures Stored() && lists == old(lists)[zi := [b] + old(lists)[zi]]
    {
      hide Linked, AllLinked, Off;
      PushLinked(link[..], heads[..], lists, parked, zoneFree, zi, b);
      link[b] := heads[zi];
      heads[zi] := b;
      lists := lists[zi := [b] + lists[zi]];
    }

    /** The first zone leaves a list. */
    method PopZone(zi: nat, b: nat)
      requires Stored() && zi < |lists| == NZONES && lists[zi] != [] && b == lists[zi][0]
      requires Off(lists[zi := lists[zi][1..]], parked, b)
      modifies link, heads, `lists
      ensures Stored() && lists == old(lists)[zi := old(lists)[zi][1..]]
    {
      hide Linked, AllLinked, Off;
      PopLinked(link[..], heads[..], lists, parked, zoneFree, zi);
      heads[zi] := link[b];
      link[b] := NULL;
      lists := lists[zi := lists[zi][1..]];
    }

    /** A zone leaves the parked ones. */
    method PopParked() returns (b: nat)
      requires Stored() && parked != []
      modifies `zoneFree, `parkedCount, `parked
      ensures Stored() && b == old(parked)[0] && parked == old(parked)[1..]
    {
      LinkedTail(link[..], zoneFree, parked);
      hide Linked, AllLinked;
      FirstNode(link[..], zoneFree, parked);
      b := zoneFree;
      zoneFree := link[b];
      parkedCount := parkedCount - 1;
      parked := parked[1..];
    }

    /** The walk along a list to the node before a zone */
    method FindZone(zi: nat, b: nat) returns (prev: int)
      requires Stored() && zi < |lists| == NZONES && b in lists[zi]
      ensures var i := Position(lists[zi], b); prev == if i > 0 then lists[zi][i - 1] else NULL
    {
      hide Linked, AllLinked;
      ghost var l, i := lists[zi], 0;
      prev := NULL;
      var z := heads[zi];
      ListHead(link[..], heads[..], lists, zi);
      while z != b
        invariant i < |l| && b in l[i..] && z == l[i] && prev == (if i > 0 then l[i - 1] else NULL)
        invariant Position(l, b) == i + Position(l[i..], b)
        decreases |l| - i
      {
        WalkOn(link[..], heads[..], lists, zi, i);
        assert l[i..][1..] == l[i + 1..];
        prev := z;
        z := link[z];
        i := i + 1;
      }
    }

    /** A zone is taken out of the middle of its list: `*pz = z->z_next`. */
    method TakeOut(zi: nat, b: nat)
      requires Stored() && zi < |lists| == NZONES && b in lists[zi] && NoDup(lists[zi]) && Disjoint(lists, parked)
      modifies link, heads, `lists
      ensures Stored() && lists == old(lists)[zi := Rings.Unlink(old(lists)[zi], b)]
    {
      hide Linked, AllLinked, Unlink, NoDup, Disjoint;
      var prev := FindZone(zi, b);
      UnlinkLinked(link[..], heads[..], lists, parked, zoneFree, zi, b);
      if prev == NULL {
        heads[zi] := link[b];
      } else {
        link[prev] := link[b];
      }
      lists := lists[zi := Rings.Unlink(lists[zi], b)];
    }

    /** A zone joins the parked ones. */
    method PushParked(b: nat)
      requires Stored() && b < link.Length && Off(lists, parked, b)
      modifies link, `zoneFree, `parkedCount, `parked
      ensures Stored() && parked == [b] + old(parked)
    {
      hide Linked, AllLinked, Off;
      ParkLinked(link[..], heads[..], lists, parked, zoneFree, b);
      link[b] := zoneFree;
      zoneFree := b;
      parkedCount := parkedCount + 1;
      parked := [b] + parked;
    }

    // -------------------------------------------------------------------------------
    // rt_malloc
    // -------------------------------------------------------------------------------

    /** rt_malloc of whole pages */
    method MallocLarge(n: nat) returns (r: Ptr)
      requires Valid()
      modifies this, pages, pages.next, pages.count, usage
      ensures View() == SlabSpec.MallocLarge(old(View()), n).0 && r == SlabSpec.MallocLarge(old(View()), n).1
      ensures Stored() && pages.Valid()
    {
      hide Inv, Canonical, PagesSpec.Alloc, Linked, AllLinked;
      LargeReady(View(), n);
      var g := pages.Alloc(n);
      if g == Nothing {
        return Null;
      }
      usage[g.page - origin] := Large(n);
      owned := owned[g.page := n];
      r := At(g.page * PAGE);
    }

    /** rt_malloc from the first zone of a list */
    method MallocListed(zi: nat) returns (r: Ptr)
      requires Valid() && zi < NZONES && |lists| == NZONES && lists[zi] != []
      modifies this, link, heads
      ensures lists != [] && |old(lists)| == NZONES && old(lists)[zi][0] in old(zones)
      ensures View() == SlabSpec.MallocListed(old(View()), zi).0 && r == SlabSpec.MallocListed(old(View()), zi).1
      ensures Stored() && pages.Valid()
    {
      ghost var s := View();
      GrabsRight(s, zi);
      HeadOff(s, zi);
      hide Inv, Grab, Canonical, Linked, AllLinked, Off;
      ListHead(link[..], heads[..], lists, zi);
      var b := heads[zi];
      var z := zones[b];
      z := z.(nfree := z.nfree - 1);
      if z.nfree == 0 {
        PopZone(zi, b);
      }
      var p;
      z, p := TakeChunk(b, z);
      assert (z, p) == Grab(b, s.zones[b]);
      zones := zones[b := z];
      r := At(p);
    }

    /** rt_malloc takes a chunk that was never used, or else the first of the free list. */
    method TakeChunk(b: nat, z: Zone) returns (y: Zone, p: nat)
      requires z.uindex >= 0 && (z.uindex + 1 == z.nmax ==> z.free != [])
      ensures (y, p) == Grab(b, z.(nfree := z.nfree + 1)) && y.nfree == z.nfree
    {
      if z.uindex + 1 != z.nmax {
        y := z.(uindex := z.uindex + 1);
        p := Addr(b, y, y.uindex);
      } else {
        p := z.free[0];
        y := z.(free := z.free[1..]);
      }
    }

    /** rt_malloc writes a zone header, takes the first chunk and lists the zone. */
    method OpenZone(zi: nat, size: nat, b: nat) returns (r: Ptr)
      requires Stored() && size > 0 && zi < |lists| == NZONES && b < link.Length && Off(lists, parked, b)
      modifies this`zones, this`lists, link, heads
      ensures View() == SlabSpec.OpenZone(old(View()), zi, size, b).0 && r == SlabSpec.OpenZone(old(View()), zi, size, b).1
      ensures Stored()
    {
      hide Linked, AllLinked, Off;
      var off := if LooksPowerOfTwo(size) then RoundUp(ZONE_HEADER, size) else RoundUp(ZONE_HEADER, 8);
      var nmax := (zoneSize - off) / size;
      var z := Zone(zi, size, off, nmax, nmax - 1, 0, []);
      r := At(Addr(b, z, 0));
      zones := zones[b := z];
      PushZone(zi, b);
    }

    /** rt_malloc takes a parked zone over. */
    method NewFromParked(zi: nat, size: nat) returns (r: Ptr)
      requires Valid() && zi < |lists| == NZONES && size > 0 && parked != []
      modifies this, link, heads
      ensures View() == SlabSpec.MallocParked(old(View()), zi, size).0 && r == SlabSpec.MallocParked(old(View()), zi, size).1
      ensures Stored() && pages.Valid()
    {
      ghost var s := View();
      ParkedOff(s);
      hide Inv, Canonical, Linked, AllLinked, Off;
      var b := PopParked();
      assert View() == s.(parked := s.parked[1..]);
      hide SlabSpec.OpenZone;
      r := OpenZone(zi, size, b);
    }

    /** rt_malloc gets a zone from the page allocator. */
    method NewFromPages(zi: nat, size: nat) returns (r: Ptr)
      requires Valid() && zi < |lists| == NZONES && size > 0
      modifies this, pages, pages.next, pages.count, usage, link, heads
      ensures View() == SlabSpec.MallocNew(old(View()), zi, size).0 && r == SlabSpec.MallocNew(old(View()), zi, size).1
      ensures Stored() && pages.Valid()
    {
      ghost var s := View();
      hide Inv, Core, PagesSpec.Alloc, Canonical, Mark, Linked, AllLinked, Off;
      InvCore(s);
      NewReady(s);
      var n := zoneSize / PAGE;
      var g := pages.Alloc(n);
      if g == Nothing {
        return Null;
      }
      MarkPages(g.page, n, true);
      owned := owned[g.page := n];
      assert View() == s.(pages := PagesSpec.Alloc(s.pages, n).0, owned := s.owned[g.page := n],
                          usage := Mark(s.origin, s.usage, g.page, n, true));
      hide SlabSpec.OpenZone;
      r := OpenZone(zi, size, g.page);
    }

    /** rt_malloc of a chunk */
    method MallocSmall(zi: nat, size: nat) returns (r: Ptr)
      requires Valid() && zi < |lists| == NZONES && size > 0
      modifies this, pages, pages.next, pages.count, usage, link, heads
      ensures View() == SlabSpec.MallocSmall(old(View()), zi, size).0 && r == SlabSpec.MallocSmall(old(View()), zi, size).1
      ensures Stored() && pages.Valid()
    {
      hide Inv, Canonical, SlabSpec.MallocListed, SlabSpec.MallocParked, SlabSpec.MallocNew, Linked, AllLinked;
      ListHead(link[..], heads[..], lists, zi);
      FirstNode(link[..], zoneFree, parked);
      if heads[zi] != NULL {
        r := MallocListed(zi);
      } else if zoneFree != NULL {
        r := NewFromParked(zi, size);
      } else {
        r := NewFromPages(zi, size);
      }
    }

    /** rt_malloc */
    method Malloc(size: nat) returns (r: Ptr)
      requires Valid() && size <= 0xFFFF_FFFF
      modifies this, pages, pages.next, pages.count, usage, link, heads
      ensures Valid() && View() == SlabSpec.Malloc(old(View()), size).0 && r == SlabSpec.Malloc(old(View()), size).1
    {
      ghost var s := View();
      MallocKeeps(s, size);
      CoreLists(s);
      if 0 < size < LimitOf(zoneSize) {
        MallocClass(s, size);
      }
      hide Inv, SlabSpec.MallocLarge, SlabSpec.MallocSmall, PagesFor, ZoneIndex, ChunkSize, LimitOf, Canonical, Linked, AllLinked;
      if size == 0 {
        return Null;
      }
      if size >= LimitOf(zoneSize) {
        r := MallocLarge(PagesFor(size));
      } else {
        r := MallocSmall(ZoneIndex(size), ChunkSize(size));
      }
    }

    // -------------------------------------------------------------------------------
    // rt_free
    // -------------------------------------------------------------------------------

    /** rt_free of a large block */
    method FreeLarge(b: nat, n: nat)
      requires Valid() && IsLarge(View(), b) && n == owned[b]
      modifies this, pages, pages.next, pages.count, usage
      ensures View() == SlabSpec.FreeLarge(old(View()), b, n)
      ensures Stored() && pages.Valid()
    {
      ghost var s := View();
      hide Inv, Core, Canonical, NoneFree, Linked, AllLinked, IsLarge, PagesSpec.Free;
      InvCore(s);
      LargeSpanTaken(s, b);
      usage[b - origin] := Large(0);
      assert usage[..] == s.usage[b - s.origin := Large(0)];
      pages.Free(b, n);
      owned := owned - {b};
      assert View() == s.(pages := PagesSpec.Free(s.pages, b, n), owned := s.owned - {b}, usage := s.usage[b - s.origin := Large(0)]);
    }

    /** rt_free links the chunk to its zone, and lists the zone again if it was full. */
    method PutBack(b: nat, p: nat)
      requires Stored() && b in zones && zones[b].zi < |lists| == NZONES && b < link.Length
      requires zones[b].nfree == 0 ==> Off(lists, parked, b)
      modifies this`zones, this`lists, link, heads
      ensures View() == SlabSpec.PutBack(old(View()), b, p) && Stored()
    {
      hide Linked, AllLinked, Off;
      var z := zones[b];
      zones := zones[b := z.(free := [p] + z.free, nfree := z.nfree + 1)];
      if z.nfree == 0 {
        PushZone(z.zi, b);
      }
    }

    /** rt_free takes a whole zone off its list and parks it. */
    method Park(b: nat)
      requires Stored() && b in zones && zones[b].zi < |lists| == NZONES && b < link.Length
      requires b in lists[zones[b].zi] && NoDup(lists[zones[b].zi]) && Disjoint(lists, parked)
      requires Off(lists[zones[b].zi := Rings.Unlink(lists[zones[b].zi], b)], parked, b)
      modifies this`lists, this`parked, this`parkedCount, this`zoneFree, link, heads
      ensures View() == SlabSpec.Park(old(View()), b) && Stored()
    {
      hide Linked, AllLinked, Off, Unlink, Disjoint;
      TakeOut(zones[b].zi, b);
      PushParked(b);
    }

    /** rt_free gives the pages of a parked zone back. */
    method Release()
      requires Core(View()) && Stored() && pages.Valid() && parked != []
      modifies this, pages, pages.next, pages.count, usage
      ensures View() == SlabSpec.Release(old(View())) && Stored() && pages.Valid()
    {
      ghost var s := View();
      hide Core, Canonical, NoneFree, Mark, Linked, AllLinked, PagesSpec.Free;
      ParkedSpanTaken(s);
      var b := PopParked();
      MarkPages(b, zoneSize / PAGE, false);
      pages.Free(b, zoneSize / PAGE);
      zones := zones - {b};
      owned := owned - {b};
    }

    /** rt_free moves a whole zone to the parked ones, and at most two stay there. */
    method Retire(b: nat)
      requires Core(View()) && Stored() && pages.Valid() && b in zones && b !in parked && Whole(zones[b])
      modifies this, pages, pages.next, pages.count, usage, link, heads
      ensures b in old(zones) && old(zones)[b].zi < |old(lists)|
      ensures
        var u := SlabSpec.Park(old(View()), b);
        View() == if |u.parked| > RELEASE_THRESH then SlabSpec.Release(u) else u
      ensures Stored() && pages.Valid()
    {
      ghost var s := View();
      hide Core, SlabSpec.Release, Unlink, Canonical, Linked, AllLinked, Off, Disjoint;
      ParkKeeps(s, b);
      ParkReady(s, b);
      Park(b);
      if parkedCount > RELEASE_THRESH {
        Release();
      }
    }

    /** rt_free asks whether a zone is whole and its class has another to serve from. */
    method IsSpare(b: nat) returns (yes: bool)
      requires Core(View()) && Stored() && b in zones && b !in parked && zones[b].nfree > 0
      ensures zones[b].zi < |lists|
      ensures yes <==> ParksNow(View(), b)
    {
      ZoneListed(View(), b);
      hide Core, ParksNow, AllLinked;
      var z := zones[b];
      LinkOfZone(link[..], heads[..], lists, z.zi, b);
      ParksIff(View(), b);
      yes := z.nfree == z.nmax && (link[b] != NULL || heads[z.zi] != b);
    }

    /** rt_free of a chunk of zone `b` */
    method FreeSmall(b: nat, p: nat)
      requires Valid() && LiveIn(View(), b, p)
      modifies this, pages, pages.next, pages.count, usage, link, heads
      ensures b in old(zones) && old(zones)[b].zi < |old(lists)|
      ensures View() == SlabSpec.FreeSmall(old(View()), b, p) && Stored() && pages.Valid()
    {
      ghost var s := View();
      hide Inv, Core, LiveIn, SlabSpec.PutBack, SlabSpec.Park, SlabSpec.Release, ParksNow, Canonical, Linked, AllLinked, Off, Live;
      InvCore(s);
      PutBackReady(s, b, p);
      ghost var t := SlabSpec.PutBack(s, b, p);
      PutBack(b, p);
      assert View() == t;
      var yes := IsSpare(b);
      if yes {
        SpareIsWhole(t, b);
        Retire(b);
      }
    }

    /** rt_free when memusage says that the pointer lies in a zone */
    method FreeChunk(p: nat, page: nat, k: nat)
      requires Valid() && IsLive(View(), p) && page == PageNo(p) && origin <= page < origin + usage.Length
      requires usage[page - origin] == Small(k)
      modifies this, pages, pages.next, pages.count, usage, link, heads
      ensures Valid() && View() == SlabSpec.Free(old(View()), p)
    {
      ghost var s := View();
      assert Inv(s) && Core(s);
      assert s.usage[page - s.origin] == Small(k);
      hide Inv, Core, IsLive, LiveIn, SlabSpec.FreeSmall, SlabSpec.Free, PageNo, UseOf, Canonical, Linked, AllLinked;
      FreeKeeps(s, p);
      SmallBack(s, p, page, k);
      var b := page - k;
      FreeIsSmall(s, p, page, k, b);
      FreeSmall(b, p);
    }

    /** rt_free when memusage says that the pointer is a large block */
    method FreeBlock(p: nat, page: nat, n: nat)
      requires Valid() && IsLive(View(), p) && page == PageNo(p) && origin <= page < origin + usage.Length
      requires usage[page - origin] == Large(n)
      modifies this, pages, pages.next, pages.count, usage
      ensures Valid() && View() == SlabSpec.Free(old(View()), p)
    {
      ghost var s := View();
      assert Inv(s) && Core(s);
      assert s.usage[page - s.origin] == Large(n);
      hide Inv, Core, IsLive, LiveIn, SlabSpec.FreeLarge, SlabSpec.Free, PageNo, UseOf, Canonical, Linked, AllLinked;
      FreeKeeps(s, p);
      FreeIsLarge(s, p, page, n);
      FreeLarge(page, n);
    }

    /** rt_free of null, or of a pointer that rt_malloc returned and that is not yet freed */
    method Free(ptr: Ptr)
      requires Valid() && (ptr == Null || IsLive(View(), ptr.p))
      modifies this, pages, pages.next, pages.count, usage, link, heads
      ensures Valid() && View() == if ptr == Null then old(View()) else SlabSpec.Free(old(View()), ptr.p)
    {
      if ptr == Null {
        return;
      }
      var page := PageNo(ptr.p);
      FreeCases(View(), ptr.p, page);
      hide Inv, Core, IsLive, PageNo, SlabSpec.Free, UseOf, Canonical, Linked, AllLinked;
      match usage[page - origin]
      case Large(n) => FreeBlock(ptr.p, page, n);
      case Small(k) => FreeChunk(ptr.p, page, k);
      case FreePage =>
    }
  }

  // ---------------------------------------------------------------------------------
  // Links of the lists
  // ---------------------------------------------------------------------------------

  /** The zone is on no list. */
  ghost predicate Off(lists: seq<seq<nat>>, parked: seq<nat>, b: nat) {
    b !in parked && forall zi | 0 <= zi < |lists| :: b !in lists[zi]
  }

  lemma {:induction false} EmptyLinked(link: seq<int>, heads: seq<int>, lists: seq<seq<nat>>)
    requires |heads| == |lists| && forall zi | 0 <= zi < |lists| :: lists[zi] == [] && heads[zi] == NULL
    ensures AllLinked(link, heads, lists) && Linked(link, NULL, [])
  {
  }

  lemma {:induction false} ListHead(link: seq<int>, heads: seq<int>, lists: seq<seq<nat>>, zi: nat)
    requires AllLinked(link, heads, lists) && zi < |lists|
    ensures |heads| == |lists| && heads[zi] == HeadOf(lists[zi], NULL)
    ensures lists[zi] == [] <==> heads[zi] == NULL
  {
    SegNodes(link, heads[zi], lists[zi], NULL);
  }

  lemma {:induction false} FirstNode(link: seq<int>, start: int, ns: seq<nat>)
    requires Linked(link, start, ns)
    ensures start == HeadOf(ns, NULL)
    ensures ns == [] <==> start == NULL
  {
    SegNodes(link, start, ns, NULL);
  }

  /** The link of a node in the middle of a list */
  lemma {:induction false} NodeLink(link: seq<int>, start: int, l: seq<nat>, i: nat)
    requires Linked(link, start, l) && i < |l|
    ensures l[i] < |link| && link[l[i]] == if i + 1 < |l| then l[i + 1] else NULL
  {
    SegParts(link, start, l, 0, i);
    assert l[i..][0] == l[i] && l[i..][1..] == l[i + 1..];
    SegNodes(link, link[l[i]], l[i + 1..], NULL);
  }

  lemma {:induction false} WalkOn(link: seq<int>, heads: seq<int>, lists: seq<seq<nat>>, zi: nat, i: nat)
    requires AllLinked(link, heads, lists) && zi < |lists| && i < |lists[zi]|
    ensures lists[zi][i] < |link| && link[lists[zi][i]] == if i + 1 < |lists[zi]| then lists[zi][i + 1] else NULL
  {
    NodeLink(link, heads[zi], lists[zi], i);
  }

  lemma {:induction false} PushLinked(link: seq<int>, heads: seq<int>, lists: seq<seq<nat>>, parked: seq<nat>, free: int,
                                      zi: nat, b: nat)
    requires AllLinked(link, heads, lists) && Linked(link, free, parked) && zi < |lists| && b < |link| && Off(lists, parked, b)
    ensures |heads| == |lists|
    ensures AllLinked(link[b := heads[zi]], heads[zi := b], lists[zi := [b] + lists[zi]]) && Linked(link[b := heads[zi]], free, parked)
  {
    hide Linked;
    LinkedCons(link, heads[zi], lists[zi], b);
    LinkedFrame(link, free, parked, b, heads[zi]);
    forall k | 0 <= k < |lists| && k != zi ensures Linked(link[b := heads[zi]], heads[k], lists[k]) {
      LinkedFrame(link, heads[k], lists[k], b, heads[zi]);
    }
  }

  lemma {:induction false} PopLinked(link: seq<int>, heads: seq<int>, lists: seq<seq<nat>>, parked: seq<nat>, free: int, zi: nat)
    requires AllLinked(link, heads, lists) && Linked(link, free, parked) && zi < |lists| && lists[zi] != []
    requires Off(lists[zi := lists[zi][1..]], parked, lists[zi][0])
    ensures |heads| == |lists| && lists[zi][0] < |link|
    ensures
      var b := lists[zi][0];
      AllLinked(link[b := NULL], heads[zi := link[b]], lists[zi := lists[zi][1..]]) && Linked(link[b := NULL], free, parked)
  {
    var b, after := lists[zi][0], lists[zi := lists[zi][1..]];
    LinkedTail(link, heads[zi], lists[zi]);
    hide Linked;
    assert b !in after[zi];
    LinkedFrame(link, link[b], lists[zi][1..], b, NULL);
    LinkedFrame(link, free, parked, b, NULL);
    forall k | 0 <= k < |lists| && k != zi ensures Linked(link[b := NULL], heads[k], lists[k]) {
      assert b !in after[k];
      LinkedFrame(link, heads[k], lists[k], b, NULL);
    }
  }

  lemma {:induction false} ParkLinked(link: seq<int>, heads: seq<int>, lists: seq<seq<nat>>, parked: seq<nat>, free: int, b: nat)
    requires AllLinked(link, heads, lists) && Linked(link, free, parked) && b < |link| && Off(lists, parked, b)
    ensures AllLinked(link[b := free], heads, lists) && Linked(link[b := free], b, [b] + parked)
  {
    hide Linked;
    LinkedCons(link, free, parked, b);
    forall k | 0 <= k < |lists| ensures Linked(link[b := free], heads[k], lists[k]) {
      LinkedFrame(link, heads[k], lists[k], b, free);
    }
  }

  /** Lists share no zone. */
  ghost predicate Disjoint(lists: seq<seq<nat>>, parked: seq<nat>) {
    && (forall i, j, b | 0 <= i < |lists| && 0 <= j < |lists| && b in lists[i] && b in lists[j] :: i == j)
    && (forall i, b | 0 <= i < |lists| && b in lists[i] :: b !in parked)
  }

  lemma {:induction false} UnlinkLinked(link: seq<int>, heads: seq<int>, lists: seq<seq<nat>>, parked: seq<nat>, free: int,
                                        zi: nat, b: nat)
    requires AllLinked(link, heads, lists) && Linked(link, free, parked) && Disjoint(lists, parked)
    requires zi < |lists| && b in lists[zi] && NoDup(lists[zi])
    ensures |heads| == |lists| && b < |link|
    ensures
      var l, i := lists[zi], Position(lists[zi], b);
      var after := lists[zi := Unlink(l, b)];
      if i == 0 then AllLinked(link, heads[zi := link[b]], after) && Linked(link, free, parked)
      else l[i - 1] < |link| && AllLinked(link[l[i - 1] := link[b]], heads, after) && Linked(link[l[i - 1] := link[b]], free, parked)
  {
    var l, i := lists[zi], Position(lists[zi], b);
    NodeLink(link, heads[zi], l, i);
    assert Respliced(l, i, i + 1, []) == Unlink(l, b);
    assert HeadOf(l[i + 1..], NULL) == link[b];
    Relinked(link, link, heads[zi], l, i, i + 1, []);
    hide Linked;
    if i > 0 {
      var prev := l[i - 1];
      assert prev in l;
      LinkedFrame(link, free, parked, prev, link[b]);
      forall k | 0 <= k < |lists| && k != zi ensures Linked(link[prev := link[b]], heads[k], lists[k]) {
        assert prev !in lists[k];
        LinkedFrame(link, heads[k], lists[k], prev, link[b]);
      }
    }
  }

  lemma {:induction false} LinkOfZone(link: seq<int>, heads: seq<int>, lists: seq<seq<nat>>, zi: nat, b: nat)
    requires AllLinked(link, heads, lists) && zi < |lists| && b in lists[zi]
    ensures |heads| == |lists| && b < |link| && heads[zi] == lists[zi][0]
    ensures link[b] != NULL <==> Position(lists[zi], b) + 1 < |lists[zi]|
  {
    NodeLink(link, heads[zi], lists[zi], Position(lists[zi], b));
    ListHead(link, heads, lists, zi);
  }

  // ---------------------------------------------------------------------------------
  // Lists of the slab
  // ---------------------------------------------------------------------------------

  /** What is on a list belongs there, and is on it once. */
  lemma {:induction false} OnList(s: Slab, zi: nat, b: nat)
    requires Core(s) && zi < NZONES
    ensures |s.lists| == NZONES && (b in s.lists[zi] <==> Listed(s.zones, s.parked, zi, b))
  {
    assert b in s.lists[zi] <==> b in multiset(s.lists[zi]);
    assert multiset(s.lists[zi])[b] == if Listed(s.zones, s.parked, zi, b) then 1 else 0;
  }

  lemma {:induction false} ListDistinct(s: Slab, zi: nat)
    requires Core(s) && zi < NZONES
    ensures |s.lists| == NZONES && NoDup(s.lists[zi])
  {
    var l := s.lists[zi];
    forall b ensures multiset(l)[b] <= 1 {
      assert multiset(s.lists[zi])[b] == if SlabSpec.Listed(s.zones, s.parked, zi, b) then 1 else 0;
    }
    hide Core;
    OnceEach(l);
  }

  lemma {:induction false} OnceEach(l: seq<nat>)
    requires forall b :: multiset(l)[b] <= 1
    ensures NoDup(l)
  {
    forall i, j | 0 <= i < j < |l| ensures l[i] != l[j] {
      assert multiset(l)[l[j]] <= 1;
      assert l == l[..j] + [l[j]] + l[j + 1..];
      assert multiset(l) == multiset(l[..j]) + multiset{l[j]} + multiset(l[j + 1..]);
      assert l[..j][i] == l[i];
    }
  }

  lemma {:induction false} ListsDisjoint(s: Slab)
    requires Core(s)
    ensures Disjoint(s.lists, s.parked)
  {
    CoreLists(s);
    hide Core;
    forall i, j, b | 0 <= i < |s.lists| && 0 <= j < |s.lists| && b in s.lists[i] && b in s.lists[j] ensures i == j {
      OnList(s, i, b);
      OnList(s, j, b);
    }
    forall i, b | 0 <= i < |s.lists| && b in s.lists[i] ensures b !in s.parked {
      OnList(s, i, b);
    }
  }

  /** A zone that belongs on no list is on none. */
  lemma {:induction false} UnlistedOff(s: Slab, b: nat)
    requires Core(s) && b !in s.parked && (b in s.zones ==> s.zones[b].nfree <= 0)
    ensures Off(s.lists, s.parked, b)
  {
    CoreLists(s);
    hide Core;
    forall zi | 0 <= zi < |s.lists| ensures b !in s.lists[zi] {
      OnList(s, zi, b);
    }
  }

  lemma {:induction false} HeadOff(s: Slab, zi: nat)
    requires Core(s) && zi < NZONES && |s.lists| == NZONES && s.lists[zi] != []
    ensures Off(s.lists[zi := s.lists[zi][1..]], s.parked, s.lists[zi][0])
  {
    var b := s.lists[zi][0];
    OnList(s, zi, b);
    ListDistinct(s, zi);
    hide Core;
    forall k | 0 <= k < |s.lists| && k != zi ensures b !in s.lists[k] {
      OnList(s, k, b);
    }
  }

  lemma {:induction false} ZoneInside(s: Slab, b: nat)
    requires Core(s) && b in s.zones
    ensures b < s.origin + s.npages
  {
    assert Inside(s.owned, s.origin, s.origin + s.npages);
    assert b in s.owned;
  }

  lemma {:induction false} ParkedOff(s: Slab)
    requires Core(s) && s.parked != []
    ensures Off(s.lists, s.parked[1..], s.parked[0]) && s.parked[0] < s.origin + s.npages
  {
    ParkedHead(s);
    ZoneInside(s, s.parked[0]);
    CoreLists(s);
    hide Core, NoDup;
    forall zi | 0 <= zi < |s.lists| ensures s.parked[0] !in s.lists[zi] {
      OnList(s, zi, s.parked[0]);
    }
  }

  /** A zone with a chunk to give is on its list; once taken off, it is on none. */
  lemma {:induction false} ParkReady(s: Slab, b: nat)
    requires Core(s) && b in s.zones && b !in s.parked && Whole(s.zones[b])
    ensures s.zones[b].zi < |s.lists| == NZONES && b < s.origin + s.npages
    ensures
      var zi := s.zones[b].zi;
      && b in s.lists[zi] && NoDup(s.lists[zi]) && Disjoint(s.lists, s.parked)
      && Off(s.lists[zi := Unlink(s.lists[zi], b)], s.parked, b)
  {
    var zi := s.zones[b].zi;
    assert ZoneFits(b, s.zones[b], s.zoneSize);
    assert s.zones[b].nfree > 0;
    ZoneInside(s, b);
    hide ZoneFits;
    OnList(s, zi, b);
    ListDistinct(s, zi);
    ListsDisjoint(s);
    hide Core;
    UnlinkCount(s.lists[zi], b);
    OnceOnly(s.lists[zi], b);
  }

  lemma {:induction false} OnceOnly(l: seq<nat>, b: nat)
    requires NoDup(l) && b in l
    ensures b !in Unlink(l, b)
  {
  }

  lemma {:induction false} ZoneListed(s: Slab, b: nat)
    requires Core(s) && b in s.zones && b !in s.parked && s.zones[b].nfree > 0
    ensures s.zones[b].zi < |s.lists| == NZONES && b in s.lists[s.zones[b].zi]
  {
    assert ZoneFits(b, s.zones[b], s.zoneSize);
    hide ZoneOk;
    OnList(s, s.zones[b].zi, b);
  }

  lemma {:induction false} ParksIff(s: Slab, b: nat)
    requires b in s.zones && s.zones[b].zi < |s.lists| && b in s.lists[s.zones[b].zi]
    ensures
      var l := s.lists[s.zones[b].zi];
      ParksNow(s, b) <==> Whole(s.zones[b]) && (Position(l, b) + 1 < |l| || l[0] != b)
  {
  }

  lemma {:induction false} SpareIsWhole(s: Slab, b: nat)
    requires b in s.zones && s.zones[b].zi < |s.lists| && ParksNow(s, b)
    ensures Whole(s.zones[b])
  {
  }

  // ---------------------------------------------------------------------------------
  // What the calls rely on
  // ---------------------------------------------------------------------------------

  /** The page of an address: what btokup shifts out */
  function PageNo(p: nat): nat {
    p / PAGE
  }

  lemma {:induction false} PutBackReady(s: Slab, b: nat, p: nat)
    requires Core(s) && LiveIn(s, b, p)
    ensures b in s.zones && s.zones[b].zi < |s.lists| == NZONES && b < s.origin + s.npages
    ensures s.zones[b].nfree == 0 ==> Off(s.lists, s.parked, b)
    ensures
      var t := PutBack(s, b, p);
      Core(t) && b in t.zones && b !in t.parked && t.zones[b].nfree > 0 && t.zones[b].zi < |t.lists| && t.parked == s.parked
  {
    PutBackKeeps(s, b, p);
    CoreLists(s);
    ZoneInside(s, b);
    assert ZoneFits(b, s.zones[b], s.zoneSize);
    PutFits(b, s.zones[b], s.zoneSize, p);
    hide Core, Live, ZoneFits, Off;
    if s.zones[b].nfree == 0 {
      UnlistedOff(s, b);
    }
  }

  lemma {:induction false} LargeReady(s: Slab, n: nat)
    requires Inv(s)
    ensures Inv(SlabSpec.MallocLarge(s, n).0) && Canonical(s.pages)
    ensures PagesSpec.Alloc(s.pages, n).1 == Nothing ==> PagesSpec.Alloc(s.pages, n).0 == s.pages
    ensures var g := PagesSpec.Alloc(s.pages, n).1; g != Nothing ==> s.origin <= g.page < s.origin + |s.usage|
  {
    LargeKeeps(s, n);
    hide OneWhole, ListsOk, UsageOk, OwnersOk, ZonesOk, ParkedOk;
    if PagesSpec.Alloc(s.pages, n).1 != Nothing {
      TakeSpan(s.pages, s.owned, s.origin, s.origin + s.npages, n);
    }
  }

  /** The pages rt_page_alloc finds are described in memusage and on no list of zones. */
  lemma {:induction false} NewReady(s: Slab)
    requires Core(s)
    ensures Canonical(s.pages)
    ensures
      var (r, g) := PagesSpec.Alloc(s.pages, s.ZonePages());
      if g == Nothing then r == s.pages
      else s.origin <= g.page && g.page + s.ZonePages() <= s.origin + |s.usage| && g.page < s.origin + s.npages
           && Off(s.lists, s.parked, g.page)
  {
    if PagesSpec.Alloc(s.pages, s.ZonePages()).1 != Nothing {
      NewPages(s);
      UnlistedOff(s, PagesSpec.Alloc(s.pages, s.ZonePages()).1.page);
    }
    hide ListsOk, UsageOk, OwnersOk, ZonesOk, ParkedOk, Off;
  }

  lemma {:induction false} InvCore(s: Slab)
    requires Inv(s)
    ensures Core(s)
  {
  }

  lemma {:induction false} LargeSpanTaken(s: Slab, b: nat)
    requires Core(s) && IsLarge(s, b)
    ensures Canonical(s.pages) && NoneFree(s.pages, b, s.owned[b])
    ensures s.origin <= b < s.origin + |s.usage| && s.owned[b] > 0 && b + s.owned[b] <= s.origin + s.npages
  {
    assert Inside(s.owned, s.origin, s.origin + s.npages) && Taken(s.pages, s.owned);
    hide ListsOk, UsageOk, ZonesOk, Spread, Canonical, NoneFree;
  }

  lemma {:induction false} ParkedSpanTaken(s: Slab)
    requires Core(s) && s.parked != []
    ensures
      var b := s.parked[0];
      && Canonical(s.pages) && NoneFree(s.pages, b, s.ZonePages())
      && s.origin <= b && b + s.ZonePages() <= s.origin + |s.usage| && s.ZonePages() > 0 && |s.usage| == s.npages
  {
    var b := s.parked[0];
    ParkedHead(s);
    assert b in s.owned && s.owned[b] == s.ZonePages();
    assert Inside(s.owned, s.origin, s.origin + s.npages) && Taken(s.pages, s.owned);
    hide ListsOk, UsageOk, ZonesOk, Spread, Canonical, NoneFree, NoDup;
  }

  /** memusage tells rt_free what a live pointer is. */
  lemma {:induction false} FreeCases(s: Slab, p: nat, page: nat)
    requires Core(s) && IsLive(s, p) && page == PageNo(p)
    ensures s.origin <= page < s.origin + |s.usage| && s.usage[page - s.origin] != FreePage
  {
    hide Core, Live, BlockSize, LiveIn;
    if LargeAt(s, p) {
      LargeHome(s, p);
    } else {
      var b :| LiveIn(s, b, p);
      ChunkHome(s, b, p);
    }
  }

  lemma {:induction false} FreeIsLarge(s: Slab, p: nat, page: nat, n: nat)
    requires Core(s) && IsLive(s, p) && page == PageNo(p) && s.origin <= page < s.origin + |s.usage|
    requires s.usage[page - s.origin] == Large(n)
    ensures IsLarge(s, page) && n == s.owned[page] && SlabSpec.Free(s, p) == FreeLarge(s, page, n)
  {
    hide Core, Live, BlockSize, LiveIn, FreeLarge, FreeSmall;
    if LargeAt(s, p) {
      LargeHome(s, p);
    } else {
      var b :| LiveIn(s, b, p);
      ChunkHome(s, b, p);
    }
  }

  lemma {:induction false} SmallBack(s: Slab, p: nat, page: nat, k: nat)
    requires Core(s) && IsLive(s, p) && page == PageNo(p) && s.origin <= page < s.origin + |s.usage|
    requires s.usage[page - s.origin] == Small(k)
    ensures k <= page
  {
    hide Core, Live, BlockSize, LiveIn;
    if LargeAt(s, p) {
      LargeHome(s, p);
    } else {
      var b :| LiveIn(s, b, p);
      ChunkHome(s, b, p);
    }
  }

  lemma {:induction false} FreeIsSmall(s: Slab, p: nat, page: nat, k: nat, b: nat)
    requires Core(s) && IsLive(s, p) && page == PageNo(p) && s.origin <= page < s.origin + |s.usage|
    requires s.usage[page - s.origin] == Small(k) && b + k == page
    ensures LiveIn(s, b, p) && b in s.zones && s.zones[b].zi < |s.lists| && SlabSpec.Free(s, p) == FreeSmall(s, b, p)
  {
    hide Core, Live, BlockSize, LiveIn, FreeLarge, FreeSmall;
    if LargeAt(s, p) {
      LargeHome(s, p);
    } else {
      var c :| LiveIn(s, c, p);
      InZones(s, c, p);
      ChunkHome(s, c, p);
      PutBackKeeps(s, c, p);
      CoreLists(s);
    }
  }

  /** Zones on a list have a chunk to give. */
  lemma {:induction false} GrabsRight(s: Slab, zi: nat)
    requires Core(s) && zi < NZONES && s.lists[zi] != []
    ensures s.lists[zi][0] in s.zones
    ensures var z := s.zones[s.lists[zi][0]]; z.uindex >= 0 && z.nfree > 0 && (z.uindex + 1 == z.nmax ==> z.free != [])
  {
    HeadIsZone(s.zones, s.lists, s.parked, zi);
    assert ZoneFits(s.lists[zi][0], s.zones[s.lists[zi][0]], s.zoneSize);
    hide ListsOk, UsageOk, Spread, SizeOfIndex;
  }
}

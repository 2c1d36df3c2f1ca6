/**
  One zone of the slab: a header and a row of equal chunks.

  A zone is named by the number `b` of its first page; chunks are named by address.
 */
module SlabZones {
  import opened SlabSizes
  import opened Rings

  /** slab_zone; `free` is the z_freechunk list and `off` is z_baseptr relative to the zone */
  datatype Zone = Zone(zi: nat, size: nat, off: nat, nmax: int, nfree: int, uindex: int, free: seq<nat>)

  function Addr(b: nat, z: Zone, i: nat): nat {
    b * PAGE + z.off + i * z.size
  }

  /** The first `n` chunk addresses */
  function Row(b: nat, z: Zone, n: nat): set<nat> {
    if n == 0 then {} else Row(b, z, n - 1) + {Addr(b, z, n - 1)}
  }

  function FreeSet(z: Zone): set<nat> {
    set c | c in z.free
  }

  /** The chunks that callers hold: handed out at least once and not on the free list */
  function Live(b: nat, z: Zone): set<nat> {
    if z.uindex < 0 then {} else Row(b, z, z.uindex + 1) - FreeSet(z)
  }

  ghost predicate ZoneOk(b: nat, z: Zone, zoneSize: nat) {
    && z.size > 0 && z.off >= ZONE_HEADER && z.nmax >= 2
    && z.off + z.nmax * z.size <= zoneSize
    && 0 <= z.uindex < z.nmax
    && NoDup(z.free) && FreeSet(z) <= Row(b, z, z.uindex + 1)
    && z.nfree == |z.free| + z.nmax - 1 - z.uindex
  }

  // ---------------------------------------------------------------------------------
  // Operations on one zone
  // ---------------------------------------------------------------------------------

  /** The header rt_malloc writes into a new zone; its first chunk is handed out at once. */
  function Fresh(zi: nat, size: nat, zoneSize: nat): Zone
    requires size > 0
  {
    Zone(zi, size, FirstOffset(size), Capacity(zoneSize, size), Capacity(zoneSize, size) - 1, 0, [])
  }

  /** rt_malloc in an existing zone: never-used chunks first, then the free list */
  function Grab(b: nat, z: Zone): (Zone, nat) {
    if z.uindex + 1 != z.nmax && z.uindex >= 0 then
      (z.(nfree := z.nfree - 1, uindex := z.uindex + 1), Addr(b, z, z.uindex + 1))
    else if z.free != [] then (z.(nfree := z.nfree - 1, free := z.free[1..]), z.free[0])
    else (z, 0)
  }

  /** rt_free in a zone */
  function Put(z: Zone, p: nat): Zone {
    z.(free := [p] + z.free, nfree := z.nfree + 1)
  }

  // ---------------------------------------------------------------------------------
  // Chunks of one zone
  // ---------------------------------------------------------------------------------

  lemma {:induction false} RowFacts(b: nat, z: Zone, n: nat)
    requires z.size > 0
    ensures |Row(b, z, n)| == n
    ensures forall p | p in Row(b, z, n) :: Addr(b, z, 0) <= p && p + z.size <= Addr(b, z, n)
  {
    if n > 0 {
      RowFacts(b, z, n - 1);
      assert n * z.size == (n - 1) * z.size + z.size;
    }
  }

  /** Two chunks do not overlap. */
  lemma {:induction false} RowApart(b: nat, z: Zone, n: nat, p: nat, q: nat)
    requires z.size > 0 && p in Row(b, z, n) && q in Row(b, z, n) && p != q
    ensures p + z.size <= q || q + z.size <= p
  {
    RowFacts(b, z, n - 1);
    if p != Addr(b, z, n - 1) && q != Addr(b, z, n - 1) {
      RowApart(b, z, n - 1, p, q);
    }
  }

  /** Chunks start at multiples of the size past the first. */
  lemma {:induction false} RowIndex(b: nat, z: Zone, n: nat, p: nat) returns (i: nat)
    requires p in Row(b, z, n)
    ensures i < n && p == Addr(b, z, i)
  {
    if p == Addr(b, z, n - 1) {
      i := n - 1;
    } else {
      i := RowIndex(b, z, n - 1, p);
    }
  }

  lemma {:induction false} RowSame(b: nat, z: Zone, y: Zone, n: nat)
    requires z.off == y.off && z.size == y.size
    ensures Row(b, z, n) == Row(b, y, n)
  {
    if n > 0 {
      RowSame(b, z, y, n - 1);
    }
  }

  lemma {:induction false} FreeSetSize(z: Zone)
    requires NoDup(z.free)
    ensures |FreeSet(z)| == |z.free|
    decreases |z.free|
  {
    if z.free == [] {
      assert FreeSet(z) == {};
    } else {
      var y := z.(free := z.free[1..]);
      FreeSetSize(y);
      assert FreeSet(z) == FreeSet(y) + {z.free[0]};
    }
  }

  /** z_nfree counts exactly the chunks that nobody holds. */
  lemma {:induction false} LiveCount(b: nat, z: Zone, zoneSize: nat)
    requires ZoneOk(b, z, zoneSize)
    ensures |Live(b, z)| == z.nmax - z.nfree
    ensures z.nfree == z.nmax <==> Live(b, z) == {}
  {
    RowFacts(b, z, z.uindex + 1);
    FreeSetSize(z);
  }

  /** Every chunk lies in the zone, after the header. */
  lemma {:induction false} LiveInside(b: nat, z: Zone, zoneSize: nat, p: nat)
    requires ZoneOk(b, z, zoneSize) && p in Live(b, z)
    ensures z.size > 0
    ensures b * PAGE + ZONE_HEADER <= p && p + z.size <= b * PAGE + zoneSize
  {
    hide Row, FreeSet, NoDup;
    RowFacts(b, z, z.uindex + 1);
    MulMono(z.uindex + 1, z.nmax, z.size);
  }

  lemma {:induction false} FreshOk(b: nat, zi: nat, size: nat, zoneSize: nat)
    requires IsZoneSize(zoneSize) && 8 <= size <= LimitOf(zoneSize)
    ensures ZoneOk(b, Fresh(zi, size, zoneSize), zoneSize)
    ensures Live(b, Fresh(zi, size, zoneSize)) == {Addr(b, Fresh(zi, size, zoneSize), 0)}
    ensures 0 < Fresh(zi, size, zoneSize).nfree < Fresh(zi, size, zoneSize).nmax
  {
    CapacityOk(zoneSize, size);
    FirstOffsetOk(size);
    var z := Fresh(zi, size, zoneSize);
    assert Row(b, z, 1) == Row(b, z, 0) + {Addr(b, z, 0)};
  }

  /** Taking a chunk: it was not held, it is now, and nothing else changes hands. */
  lemma {:induction false} GrabOk(b: nat, z: Zone, zoneSize: nat)
    requires ZoneOk(b, z, zoneSize) && z.nfree > 0
    ensures
      var (y, p) := Grab(b, z);
      && ZoneOk(b, y, zoneSize) && y.nfree == z.nfree - 1
      && y.zi == z.zi && y.size == z.size && y.nmax == z.nmax && y.off == z.off
      && p !in Live(b, z) && Live(b, y) == Live(b, z) + {p}
  {
    if z.uindex + 1 != z.nmax {
      GrabNeverUsed(b, z, zoneSize);
    } else {
      GrabFromList(b, z, zoneSize);
    }
  }

  lemma {:induction false} GrabNeverUsed(b: nat, z: Zone, zoneSize: nat)
    requires ZoneOk(b, z, zoneSize) && z.uindex + 1 != z.nmax
    ensures
      var (y, p) := Grab(b, z);
      ZoneOk(b, y, zoneSize) && p !in Live(b, z) && Live(b, y) == Live(b, z) + {p}
  {
    hide Addr, NoDup;
    var (y, p) := Grab(b, z);
    var n := z.uindex + 1;
    NextNotInRow(b, z, n);
    RowSame(b, z, y, n);
    assert Row(b, y, n + 1) == Row(b, y, n) + {Addr(b, y, n)};
    hide Row;
    assert FreeSet(y) == FreeSet(z);
    hide FreeSet;
    AddrSame(b, z, y, n);
  }

  lemma {:induction false} AddrSame(b: nat, z: Zone, y: Zone, i: nat)
    requires z.off == y.off && z.size == y.size
    ensures Addr(b, z, i) == Addr(b, y, i)
  {
  }

  lemma {:induction false} NextNotInRow(b: nat, z: Zone, n: nat)
    requires z.size > 0
    ensures Addr(b, z, n) !in Row(b, z, n)
  {
    hide Addr, Row;
    RowFacts(b, z, n);
  }

  lemma {:induction false} GrabFromList(b: nat, z: Zone, zoneSize: nat)
    requires ZoneOk(b, z, zoneSize) && z.uindex + 1 == z.nmax && z.nfree > 0
    ensures
      var (y, p) := Grab(b, z);
      ZoneOk(b, y, zoneSize) && p !in Live(b, z) && Live(b, y) == Live(b, z) + {p}
  {
    hide Addr, Row;
    var (y, p) := Grab(b, z);
    RowSame(b, z, y, z.uindex + 1);
    assert FreeSet(z) == FreeSet(y) + {p};
    assert p !in FreeSet(y);
  }

  /** Giving a chunk back undoes that. */
  lemma {:induction false} PutOk(b: nat, z: Zone, zoneSize: nat, p: nat)
    requires ZoneOk(b, z, zoneSize) && p in Live(b, z)
    ensures ZoneOk(b, Put(z, p), zoneSize)
    ensures Live(b, Put(z, p)) == Live(b, z) - {p}
    ensures z.nfree < z.nmax
  {
    hide Addr, Row, NoDup, FreeSet;
    var y := Put(z, p);
    PutFree(z, p);
    RowSame(b, z, y, z.uindex + 1);
    LiveLeavesRoom(b, z, zoneSize, p);
  }

  lemma {:induction false} LiveLeavesRoom(b: nat, z: Zone, zoneSize: nat, p: nat)
    requires ZoneOk(b, z, zoneSize) && p in Live(b, z)
    ensures z.nfree < z.nmax
  {
    LiveCount(b, z, zoneSize);
    hide ZoneOk;
    assert Live(b, z) != {};
  }

  lemma {:induction false} PutFree(z: Zone, p: nat)
    requires NoDup(z.free) && p !in FreeSet(z)
    ensures NoDup(Put(z, p).free) && FreeSet(Put(z, p)) == FreeSet(z) + {p}
  {
    assert p !in z.free;
  }

  /**
    A power-of-two chunk size: the chunk is aligned to its size exactly when the zone is.
    Zones start at page boundaries, so sizes up to one page are always aligned.
   */
  lemma {:induction false} AlignedIff(b: nat, z: Zone, p: nat)
    requires z.size > 0 && PowerOfTwo(z.size) && z.off == FirstOffset(z.size) && z.uindex >= 0 && p in Row(b, z, z.uindex + 1)
    ensures p % z.size == 0 <==> b * PAGE % z.size == 0
    ensures z.size <= PAGE ==> p % z.size == 0
  {
    hide PowerOfTwo, FirstOffset;
    var i := RowIndex(b, z, z.uindex + 1, p);
    FirstOffsetOk(z.size);
    var q := z.off / z.size;
    assert z.off == q * z.size;
    assert p == b * PAGE + (q + i) * z.size;
    AddMultiple(b * PAGE, q + i, z.size);
    if z.size <= PAGE {
      PagePower();
      var k := SmallerDivides(z.size, PAGE);
      assert b * PAGE == (b * k) * z.size;
      MultipleMod(b * k, z.size);
    }
  }

  lemma {:induction false} AddMultiple(a: nat, q: nat, n: nat)
    requires n > 0
    ensures (a + q * n) % n == a % n
  {
    var k := a / n;
    assert a == k * n + a % n;
    assert a + q * n == (k + q) * n + a % n;
    QuotientAndRest(k + q, a % n, n);
  }

  lemma {:induction false} QuotientAndRest(q: nat, r: nat, n: nat)
    requires r < n
    ensures (q * n + r) % n == r
  {
    var x := q * n + r;
    var d := x / n - q;
    assert x == x / n * n + x % n;
    assert d * n == r - x % n;
    MulMono(1, d, n);
    MulMono(1, -d, n);
  }

  lemma {:induction false} MulMono(a: int, b: int, n: nat)
    ensures a <= b ==> a * n <= b * n
  {
  }
}

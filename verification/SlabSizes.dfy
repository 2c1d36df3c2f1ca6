/** Size classes of the slab allocator. */
module SlabSizes {

  import opened Bits

  const PAGE: nat := 4096
  const LIMIT: nat := 16384           // ZALLOC_ZONE_LIMIT
  const NZONES: nat := 72
  const ZONE_HEADER: nat := 36        // sizeof(slab_zone)

  /** (n + step - 1) & ~(step - 1) for the power-of-two steps used here */
  function RoundUp(n: nat, step: nat): (r: nat)
    requires step > 0
    ensures n <= r < n + step
  {
    (n + step - 1) / step * step
  }

  /** The chunk granularity for a request of `n` bytes */
  function Step(n: nat): nat {
    if n < 128 then 8 else if n < 256 then 16 else if n < 512 then 32 else if n < 1024 then 64
    else if n < 2048 then 128 else if n < 4096 then 256 else if n < 8192 then 512 else 1024
  }

  /** What zoneindex adds to the quotient for that granularity */
  function Base(n: nat): int {
    if n < 128 then -1 else if n < 256 then 7 else if n < 512 then 15 else if n < 1024 then 23
    else if n < 2048 then 31 else if n < 4096 then 39 else if n < 8192 then 47 else 55
  }

  /** zoneindex: the chunk size, which it writes back, and the index, which it returns */
  function ChunkSize(n: nat): nat {
    RoundUp(n, Step(n))
  }

  function ZoneIndex(n: nat): int {
    ChunkSize(n) / Step(n) + Base(n)
  }

  /** The chunk size of a zone index */
  function SizeOfIndex(zi: nat): nat {
    if zi < 16 then 8 * (zi + 1) else if zi < 24 then 16 * (zi - 7) else if zi < 32 then 32 * (zi - 15)
    else if zi < 40 then 64 * (zi - 23) else if zi < 48 then 128 * (zi - 31) else if zi < 56 then 256 * (zi - 39)
    else if zi < 64 then 512 * (zi - 47) else 1024 * (zi - 55)
  }

  lemma {:induction false} RoundUpMultiple(n: nat, step: nat)
    requires step > 0
    ensures RoundUp(n, step) / step * step == RoundUp(n, step)
    ensures RoundUp(n, step) / step == (n + step - 1) / step
  {
    var q := (n + step - 1) / step;
    QuotientOf(q, step);
  }

  lemma {:induction false} QuotientOf(q: nat, step: nat)
    requires step > 0
    ensures q * step / step == q
  {
    if q > 0 {
      QuotientOf(q - 1, step);
      assert q * step == (q - 1) * step + step;
      assert ((q - 1) * step + step) / step == (q - 1) * step / step + 1;
    }
  }

  /**
    Every request from 1 byte up to the limit gets an index below 72, a chunk at least as
    large and less than one granule larger, and the index alone determines the chunk size.
   */
  lemma {:induction false} ZoneIndexOk(n: nat)
    requires 0 < n < LIMIT
    ensures 0 <= ZoneIndex(n) < NZONES
    ensures n <= ChunkSize(n) < n + Step(n)
    ensures 8 <= ChunkSize(n) <= LIMIT && ChunkSize(n) % 8 == 0
    ensures ChunkSize(n) == SizeOfIndex(ZoneIndex(n))
  {
    var q := (n + Step(n) - 1) / Step(n);
    RoundUpMultiple(n, Step(n));
    hide RoundUp;
    assert ChunkSize(n) == q * Step(n) && ZoneIndex(n) == q + Base(n);
    QuotientRange(n, q);
  }

  lemma {:induction false} QuotientRange(n: nat, q: nat)
    requires 0 < n < LIMIT && q == (n + Step(n) - 1) / Step(n)
    ensures n < 128 ==> 1 <= q <= 16
    ensures n >= 128 ==> 8 <= q <= 16
  {
  }

  // ---------------------------------------------------------------------------------
  // Zone size and the layout of a zone
  // ---------------------------------------------------------------------------------

  const MIN_ZONE: nat := 0x8000        // ZALLOC_MIN_ZONE_SIZE
  const MAX_ZONE: nat := 0x20000       // ZALLOC_MAX_ZONE_SIZE

  predicate IsZoneSize(n: nat) {
    n == 0x8000 || n == 0x10000 || n == 0x20000
  }

  /** zone_limit */
  function LimitOf(zoneSize: nat): nat {
    if zoneSize / 4 > LIMIT then LIMIT else zoneSize / 4
  }

  /** The loop in rt_system_heap_init: the least size in the series that the heap does not outgrow. */
  method ChooseZoneSize(limsize: nat) returns (n: nat)
    ensures IsZoneSize(n)
    ensures n < MAX_ZONE ==> limsize / 1024 <= 2 * n
    ensures n > MIN_ZONE ==> limsize / 1024 > n
  {
    n := MIN_ZONE;
    while n < MAX_ZONE && 2 * n < limsize / 1024
      invariant IsZoneSize(n)
      invariant n > MIN_ZONE ==> limsize / 1024 > n
      decreases MAX_ZONE - n
    {
      n := 2 * n;
    }
  }

  /** The test in rt_malloc for a size that is a power of two */
  predicate LooksPowerOfTwo(size: nat)
    requires size > 0
  {
    Or(size, size - 1) + 1 == 2 * size
  }

  predicate PowerOfTwo(n: nat) {
    n == 1 || (n > 0 && n % 2 == 0 && PowerOfTwo(n / 2))
  }

  /** The bit test finds exactly the powers of two. */
  lemma {:induction false} PowerOfTwoTest(size: nat)
    requires size > 0
    ensures LooksPowerOfTwo(size) <==> PowerOfTwo(size)
  {
    var m := size / 2;
    if size % 2 == 0 {
      assert (size - 1) / 2 == m - 1 && (size - 1) % 2 == 1;
      assert Or(size, size - 1) == 2 * Or(m, m - 1) + 1;
      PowerOfTwoTest(m);
    } else if size > 1 {
      assert (size - 1) / 2 == m && (size - 1) % 2 == 0;
      OrSelf(m);
      assert Or(size, size - 1) == size;
    }
  }

  /** Two powers of two, the smaller divides the larger. */
  lemma {:induction false} SmallerDivides(a: nat, b: nat) returns (q: nat)
    requires PowerOfTwo(a) && PowerOfTwo(b) && a <= b
    ensures b == q * a
  {
    if a == 1 {
      q := b;
    } else {
      q := SmallerDivides(a / 2, b / 2);
      assert q * (a / 2) * 2 == q * a;
    }
  }

  lemma {:induction false} PagePower()
    ensures PowerOfTwo(PAGE)
  {
    assert PowerOfTwo(1);
    assert PowerOfTwo(2);
    assert PowerOfTwo(4);
    assert PowerOfTwo(8);
    assert PowerOfTwo(16);
    assert PowerOfTwo(32);
    assert PowerOfTwo(64);
    assert PowerOfTwo(128);
    assert PowerOfTwo(256);
    assert PowerOfTwo(512);
    assert PowerOfTwo(1024);
    assert PowerOfTwo(2048);
  }

  lemma {:induction false} MultipleMod(q: nat, n: nat)
    requires n > 0
    ensures q * n % n == 0
  {
    QuotientOf(q, n);
    var x := q * n;
    assert x == x / n * n + x % n;
  }

  /** Where the first chunk starts in its zone */
  function FirstOffset(size: nat): nat
    requires size > 0
  {
    if LooksPowerOfTwo(size) then RoundUp(ZONE_HEADER, size) else RoundUp(ZONE_HEADER, 8)
  }

  /** z_nmax */
  function Capacity(zoneSize: nat, size: nat): int
    requires size > 0
  {
    (zoneSize - FirstOffset(size)) / size
  }

  lemma {:induction false} FirstOffsetOk(size: nat)
    requires 0 < size
    ensures ZONE_HEADER <= FirstOffset(size)
    ensures FirstOffset(size) <= if size < ZONE_HEADER then 2 * ZONE_HEADER else size + 4
    ensures PowerOfTwo(size) ==> FirstOffset(size) % size == 0
  {
    hide LooksPowerOfTwo, PowerOfTwo;
    PowerOfTwoTest(size);
    var q := (ZONE_HEADER + size - 1) / size;
    MultipleMod(q, size);
    hide RoundUp;
    assert RoundUp(ZONE_HEADER, size) == q * size;
    if size >= ZONE_HEADER {
      OneQuotient(ZONE_HEADER - 1, size);
    }
  }

  lemma {:induction false} OneQuotient(r: nat, size: nat)
    requires r < size
    ensures (r + size) / size == 1
  {
  }

  lemma {:induction false} DivideBounds(a: nat, size: nat)
    requires size > 0
    ensures a / size * size <= a
    ensures a >= 2 * size ==> a / size >= 2
  {
    var q := a / size;
    assert a < (q + 1) * size;
    assert q <= 1 ==> (q + 1) * size <= 2 * size;
  }

  /** Every size class has room for at least two chunks in a zone, so a new zone has one to spare. */
  lemma {:induction false} CapacityOk(zoneSize: nat, size: nat)
    requires IsZoneSize(zoneSize) && 8 <= size <= LimitOf(zoneSize)
    ensures Capacity(zoneSize, size) >= 2
    ensures FirstOffset(size) + Capacity(zoneSize, size) * size <= zoneSize
  {
    FirstOffsetOk(size);
    DivideBounds(zoneSize - FirstOffset(size), size);
  }

  /** A request below the limit of a zone size gets a chunk within it. */
  lemma {:induction false} ChunkWithinLimit(zoneSize: nat, n: nat)
    requires IsZoneSize(zoneSize) && 0 < n < LimitOf(zoneSize)
    ensures 8 <= ChunkSize(n) <= LimitOf(zoneSize)
  {
    ZoneIndexOk(n);
    RoundUpMultiple(n, Step(n));
  }
}

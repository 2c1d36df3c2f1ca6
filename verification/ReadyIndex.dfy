/**
  The bitmap that says which ready lists are not empty, for up to 32 priorities in one word and
  for 256 in two levels.

  Threads keep the masks of their priority; bits are set and cleared through those.
 */
module ReadyIndex {
  import opened Bits

  datatype Form = Flat | TwoLevel

  /** RT_THREAD_PRIORITY_MAX */
  function Levels(f: Form): nat {
    match f case Flat => 32 case TwoLevel => 256
  }

  const GROUPS: nat := 32

  function Repeat<T>(x: T, n: nat): (s: seq<T>)
    ensures |s| == n && forall i | 0 <= i < n :: s[i] == x
  {
    seq(n, _ => x)
  }

  /** The fields number, number_mask and high_mask of a thread */
  datatype Mask = Mask(number: nat, numberMask: nat, highMask: nat)

  /** How they are calculated from a priority */
  function MaskOf(f: Form, p: nat): Mask {
    match f
    case Flat => Mask(0, Pow2(p), 0)
    case TwoLevel => Mask(p / 8, Pow2(p / 8), Pow2(p % 8))
  }

  /** rt_thread_ready_priority_group and rt_thread_ready_table */
  datatype Index = Index(group: nat, table: seq<nat>)

  /** rt_schedule_insert_thread */
  function SetIndex(f: Form, x: Index, m: Mask): Index {
    match f
    case Flat => x.(group := Or(x.group, m.numberMask))
    case TwoLevel =>
      if m.number < |x.table| then
        Index(Or(x.group, m.numberMask), x.table[m.number := Or(x.table[m.number], m.highMask)])
      else x
  }

  /** rt_schedule_remove_thread, when the list of the thread's priority has become empty */
  function ClearIndex(f: Form, x: Index, m: Mask): Index {
    match f
    case Flat => x.(group := AndNot(x.group, m.numberMask))
    case TwoLevel =>
      if m.number < |x.table| then
        var byte := AndNot(x.table[m.number], m.highMask);
        Index(if byte == 0 then AndNot(x.group, m.numberMask) else x.group, x.table[m.number := byte])
      else x
  }

  /** The lookup of rt_schedule */
  function Lookup(f: Form, x: Index): nat {
    var number := if x.group < 0x1_0000_0000 then Lowest32(x.group) else 0;
    match f
    case Flat => number
    case TwoLevel =>
      if number < |x.table| && x.table[number] < 256 then number * 8 + LowestBitmap(x.table[number]) else 0
  }

  ghost predicate IndexedFlat(group: nat, ready: seq<seq<nat>>) {
    && 32 <= |ready| && group < Pow2(32)
    && (forall p | 0 <= p < 32 :: Bit(group, p) <==> ready[p] != [])
  }

  /** Bit `n` of the group: byte `n` of the table is not zero.  Bit `p % 8` of byte `p / 8`: list `p` is not empty. */
  ghost predicate IndexedTwo(group: nat, table: seq<nat>, ready: seq<seq<nat>>) {
    && |table| == GROUPS && 256 <= |ready| && group < Pow2(GROUPS)
    && (forall n | 0 <= n < GROUPS :: table[n] < Pow2(8) && (Bit(group, n) <==> table[n] != 0))
    && (forall p | 0 <= p < 256 :: Bit(table[p / 8], p % 8) <==> ready[p] != [])
  }

  /** The index says exactly which ready lists are not empty. */
  ghost predicate Indexed(f: Form, x: Index, ready: seq<seq<nat>>) {
    match f
    case Flat => IndexedFlat(x.group, ready)
    case TwoLevel => IndexedTwo(x.group, x.table, ready)
  }

  /** Only which lists are empty matters. */
  lemma {:induction false} SameEmptiness(f: Form, x: Index, a: seq<seq<nat>>, b: seq<seq<nat>>)
    requires Indexed(f, x, a) && |a| == |b|
    requires forall p | 0 <= p < Levels(f) && p < |a| :: a[p] == [] <==> b[p] == []
    ensures Indexed(f, x, b)
  {
    hide Bit, Pow2;
  }

  lemma {:induction false} EmptyIndex(f: Form, ready: seq<seq<nat>>)
    requires Levels(f) <= |ready| && forall p | 0 <= p < |ready| :: ready[p] == []
    ensures Indexed(f, Index(0, Repeat(0, GROUPS)), ready)
  {
    Pow2Of8();
    hide Pow2, Bit;
    forall p: nat ensures !Bit(0, p) {
      ZeroHasNoBit(p);
    }
  }

  // ---------------------------------------------------------------------------------
  // Both forms under insertion and removal
  // ---------------------------------------------------------------------------------

  lemma {:induction false} SetFlat(group: nat, ready: seq<seq<nat>>, p: nat, s: seq<nat>)
    requires IndexedFlat(group, ready) && p < 32 && s != []
    ensures IndexedFlat(SetBit(group, p), ready[p := s])
  {
    hide Pow2, SetBit;
    BitBounds(group, p, 32);
    forall q | 0 <= q < 32 ensures Bit(SetBit(group, p), q) <==> ready[p := s][q] != [] {
      SetBitAt(group, p, q);
    }
  }

  lemma {:induction false} ClearFlat(group: nat, ready: seq<seq<nat>>, p: nat)
    requires IndexedFlat(group, ready) && p < 32
    ensures IndexedFlat(ClearBit(group, p), ready[p := []])
  {
    hide Pow2, ClearBit;
    BitBounds(group, p, 32);
    forall q | 0 <= q < 32 ensures Bit(ClearBit(group, p), q) <==> ready[p := []][q] != [] {
      ClearBitAt(group, p, q);
    }
  }

  lemma {:induction false} SetTwo(group: nat, table: seq<nat>, ready: seq<seq<nat>>, p: nat, s: seq<nat>)
    requires IndexedTwo(group, table, ready) && p < 256 && s != []
    ensures IndexedTwo(SetBit(group, p / 8), table[p / 8 := SetBit(table[p / 8], p % 8)], ready[p := s])
  {
    hide Pow2, SetBit, Bit;
    var n, b := p / 8, p % 8;
    var byte := SetBit(table[n], b);
    BitBounds(group, n, GROUPS);
    BitBounds(table[n], b, 8);
    SetBitAt(table[n], b, b);
    if byte == 0 {
      ZeroHasNoBit(b);
    }
    forall m | 0 <= m < GROUPS ensures Bit(SetBit(group, n), m) <==> table[n := byte][m] != 0 {
      SetBitAt(group, n, m);
    }
    forall q | 0 <= q < 256 ensures Bit(table[n := byte][q / 8], q % 8) <==> ready[p := s][q] != [] {
      SetBitAt(table[n], b, q % 8);
      assert q / 8 == n && q % 8 == b ==> q == p;
    }
  }

  lemma {:induction false} ClearTwo(group: nat, table: seq<nat>, ready: seq<seq<nat>>, p: nat)
    requires IndexedTwo(group, table, ready) && p < 256
    ensures
      var byte := ClearBit(table[p / 8], p % 8);
      IndexedTwo(if byte == 0 then ClearBit(group, p / 8) else group, table[p / 8 := byte], ready[p := []])
  {
    hide Pow2, ClearBit, Bit;
    var n, b := p / 8, p % 8;
    var byte := ClearBit(table[n], b);
    BitBounds(group, n, GROUPS);
    BitBounds(table[n], b, 8);
    if byte != 0 {
      LowBitIsLowest(byte, 0);
      ClearBitAt(table[n], b, LowBit(byte));
      if table[n] == 0 {
        ZeroHasNoBit(LowBit(byte));
      }
    }
    forall m | 0 <= m < GROUPS ensures Bit(ClearBit(group, n), m) <==> m != n && Bit(group, m) {
      ClearBitAt(group, n, m);
    }
    forall q | 0 <= q < 256 ensures Bit(table[n := byte][q / 8], q % 8) <==> ready[p := []][q] != [] {
      ClearBitAt(table[n], b, q % 8);
      assert q / 8 == n && q % 8 == b ==> q == p;
    }
  }

  /** With the masks of its priority, inserting a thread keeps the index right. */
  lemma {:induction false} SetKeeps(f: Form, x: Index, ready: seq<seq<nat>>, p: nat, s: seq<nat>)
    requires Indexed(f, x, ready) && p < Levels(f) && p < |ready| && s != []
    ensures Indexed(f, SetIndex(f, x, MaskOf(f, p)), ready[p := s])
  {
    hide Or, SetBit, Pow2, Bit;
    match f
    case Flat =>
      MaskIsBit(x.group, p);
      SetFlat(x.group, ready, p, s);
    case TwoLevel =>
      MaskIsBit(x.group, p / 8);
      MaskIsBit(x.table[p / 8], p % 8);
      SetTwo(x.group, x.table, ready, p, s);
  }

  /** With the masks of its priority, removing the last thread of a list keeps the index right. */
  lemma {:induction false} ClearKeeps(f: Form, x: Index, ready: seq<seq<nat>>, p: nat)
    requires Indexed(f, x, ready) && p < Levels(f) && p < |ready|
    ensures Indexed(f, ClearIndex(f, x, MaskOf(f, p)), ready[p := []])
  {
    hide AndNot, ClearBit, Pow2, Bit;
    match f
    case Flat =>
      MaskIsBit(x.group, p);
      ClearFlat(x.group, ready, p);
    case TwoLevel =>
      MaskIsBit(x.group, p / 8);
      MaskIsBit(x.table[p / 8], p % 8);
      ClearTwo(x.group, x.table, ready, p);
  }

  // ---------------------------------------------------------------------------------
  // The lookup
  // ---------------------------------------------------------------------------------

  lemma {:induction false} FirstBit(g: nat, p: nat)
    requires g < Pow2(32) && Bit(g, p)
    ensures g > 0 && g < 0x1_0000_0000 && Lowest32(g) == LowBit(g) && LowBit(g) <= p && LowBit(g) < 32 && Bit(g, LowBit(g))
  {
    Pow2Of8();
    if g == 0 {
      ZeroHasNoBit(p);
    }
    hide Pow2, Lowest32, Bit, LowBit;
    LowBitIsLowest(g, p);
    LowBitBound(g, 32);
    Lowest32IsLowBit(g);
  }

  lemma {:induction false} LookupTwo(x: Index, ready: seq<seq<nat>>, p: nat)
    requires IndexedTwo(x.group, x.table, ready) && p < 256 && ready[p] != []
    ensures Lookup(TwoLevel, x) < 256 && Lookup(TwoLevel, x) <= p && ready[Lookup(TwoLevel, x)] != []
  {
    hide Pow2, LowBit, Lowest32, Bit, LowestBitmap;
    Pow2Of8();
    var n := p / 8;
    if x.table[n] == 0 {
      ZeroHasNoBit(p % 8);
    }
    FirstBit(x.group, n);
    var m := Lowest32(x.group);
    var byte := x.table[m];
    LowBitIsLowest(byte, p % 8);
    LowBitBound(byte, 8);
    TableIsLowBit(byte);
    var r := m * 8 + LowestBitmap(byte);
    assert Lookup(TwoLevel, x) == r;
    assert r / 8 == m && r % 8 == LowestBitmap(byte);
    assert Bit(x.table[r / 8], r % 8);
  }

  /** The lookup of rt_schedule gives the smallest priority whose list is not empty, in both forms. */
  lemma {:induction false} LookupIsFirst(f: Form, x: Index, ready: seq<seq<nat>>, p: nat)
    requires Indexed(f, x, ready) && p < Levels(f) && p < |ready| && ready[p] != []
    ensures Lookup(f, x) < Levels(f) && Lookup(f, x) < |ready| && Lookup(f, x) <= p && ready[Lookup(f, x)] != []
  {
    hide Pow2, LowBit, Lowest32, Bit, Lookup;
    match f
    case Flat =>
      FirstBit(x.group, p);
      FlatLookup(x);
    case TwoLevel => LookupTwo(x, ready, p);
  }

  lemma {:induction false} FlatLookup(x: Index)
    requires x.group < 0x1_0000_0000
    ensures Lookup(Flat, x) == Lowest32(x.group)
  {
  }
}

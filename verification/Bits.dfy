/**
  Bit sets in machine words, and the table that finds the lowest bit.

  A word is a natural number; `g | (1 << p)` and `g & ~(1 << p)` are SetBit and ClearBit.
 */
module Bits {

  predicate Bit(g: nat, p: nat) {
    if p == 0 then g % 2 == 1 else Bit(g / 2, p - 1)
  }

  function SetBit(g: nat, p: nat): nat {
    if p == 0 then g / 2 * 2 + 1 else SetBit(g / 2, p - 1) * 2 + g % 2
  }

  function ClearBit(g: nat, p: nat): nat {
    if p == 0 then g / 2 * 2 else ClearBit(g / 2, p - 1) * 2 + g % 2
  }

  function Pow2(n: nat): nat {
    if n == 0 then 1 else 2 * Pow2(n - 1)
  }

  /** a | b */
  function Or(a: nat, b: nat): nat {
    if a == 0 then b else Or(a / 2, b / 2) * 2 + if a % 2 == 1 || b % 2 == 1 then 1 else 0
  }

  lemma {:induction false} OrSelf(a: nat)
    ensures Or(a, a) == a
  {
    if a > 0 {
      OrSelf(a / 2);
    }
  }

  /** a & ~b */
  function AndNot(a: nat, b: nat): nat {
    if a == 0 then 0 else AndNot(a / 2, b / 2) * 2 + if a % 2 == 1 && b % 2 == 0 then 1 else 0
  }

  lemma {:induction false} OrNothing(a: nat)
    ensures Or(a, 0) == a && AndNot(a, 0) == a
  {
    if a > 0 {
      OrNothing(a / 2);
    }
  }

  /** `g | (1 << p)` sets bit `p`, and `g & ~(1 << p)` clears it. */
  lemma {:induction false} MaskIsBit(g: nat, p: nat)
    ensures Or(g, Pow2(p)) == SetBit(g, p) && AndNot(g, Pow2(p)) == ClearBit(g, p)
    decreases p
  {
    if p == 0 {
      OrNothing(g / 2);
    } else {
      assert Pow2(p) / 2 == Pow2(p - 1) && Pow2(p) % 2 == 0;
      MaskIsBit(g / 2, p - 1);
    }
  }

  lemma {:induction false} SetBitAt(g: nat, p: nat, q: nat)
    ensures Bit(SetBit(g, p), q) <==> q == p || Bit(g, q)
  {
    if p > 0 && q > 0 {
      SetBitAt(g / 2, p - 1, q - 1);
    }
  }

  lemma {:induction false} ClearBitAt(g: nat, p: nat, q: nat)
    ensures Bit(ClearBit(g, p), q) <==> q != p && Bit(g, q)
  {
    if p > 0 && q > 0 {
      ClearBitAt(g / 2, p - 1, q - 1);
    }
  }

  lemma {:induction false} BitBounds(g: nat, p: nat, n: nat)
    requires g < Pow2(n) && p < n
    ensures SetBit(g, p) < Pow2(n) && ClearBit(g, p) < Pow2(n)
  {
    if p > 0 {
      BitBounds(g / 2, p - 1, n - 1);
    }
  }

  lemma {:induction false} ZeroHasNoBit(p: nat)
    ensures !Bit(0, p)
  {
    if p > 0 {
      ZeroHasNoBit(p - 1);
    }
  }

  /** The number of the lowest bit that is set */
  function LowBit(g: nat): (p: nat)
    requires g > 0
  {
    if g % 2 == 1 then 0 else 1 + LowBit(g / 2)
  }

  lemma {:induction false} LowBitIsLowest(g: nat, q: nat)
    requires g > 0
    ensures Bit(g, LowBit(g))
    ensures Bit(g, q) ==> LowBit(g) <= q
  {
    if g % 2 == 0 {
      LowBitIsLowest(g / 2, if q > 0 then q - 1 else 0);
    }
  }

  lemma {:induction false} LowBitBound(g: nat, n: nat)
    requires 0 < g < Pow2(n)
    ensures LowBit(g) < n
  {
    if n > 0 && g % 2 == 0 {
      LowBitBound(g / 2, n - 1);
    }
  }

  // ---------------------------------------------------------------------------------
  // rt_lowest_bitmap
  // ---------------------------------------------------------------------------------

  // The 16 rows of the 256-entry table differ in their first column only.
  const FIRST_COLUMN: seq<nat> := [0, 4, 5, 4, 6, 4, 5, 4, 7, 4, 5, 4, 6, 4, 5, 4]
  const EVERY_ROW: seq<nat> := [0, 0, 1, 0, 2, 0, 1, 0, 3, 0, 1, 0, 2, 0, 1, 0]

  /** rt_lowest_bitmap[b] */
  function LowestBitmap(b: nat): nat
    requires b < 256
  {
    if b % 16 == 0 then FIRST_COLUMN[b / 16] else EVERY_ROW[b % 16]
  }

  lemma {:induction false} NibbleLow(b: nat)
    requires 0 < b < 16
    ensures LowBit(b) == EVERY_ROW[b]
    ensures FIRST_COLUMN[b] == 4 + EVERY_ROW[b]
  {
    assert b == 2 || b == 6 || b == 10 || b == 14 ==> LowBit(b / 2) == 0;
    assert b == 4 || b == 12 ==> LowBit(b / 2) == 1 + LowBit(b / 4) && LowBit(b / 4) == 0;
    assert b == 8 ==> LowBit(4) == 1 + LowBit(2) && LowBit(2) == 1 + LowBit(1);
  }

  /** The lowest `k` bits of a word */
  function Trunc(g: nat, k: nat): nat {
    if k == 0 then 0 else Trunc(g / 2, k - 1) * 2 + g % 2
  }

  lemma {:induction false} TruncNibble(g: nat)
    ensures Trunc(g, 4) == g % 16
  {
    var g1, g2, g3 := g / 2, g / 4, g / 8;
    Halves(g);
    assert Trunc(g3, 1) == g3 % 2;
    assert Trunc(g2, 2) == Trunc(g3, 1) * 2 + g2 % 2;
    assert Trunc(g1, 3) == Trunc(g2, 2) * 2 + g1 % 2;
    assert Trunc(g, 4) == g3 % 2 * 8 + g2 % 2 * 4 + g1 % 2 * 2 + g % 2;
    hide Trunc;
    var k := g / 16;
    assert g == 2 * g1 + g % 2 && g1 == 2 * g2 + g1 % 2 && g2 == 2 * g3 + g2 % 2 && g3 == 2 * k + g3 % 2;
  }

  lemma {:induction false} TruncSplit(g: nat, g1: nat, g2: nat, g3: nat, g4: nat)
    requires g1 == g / 2 && g2 == g1 / 2 && g3 == g2 / 2 && g4 == g3 / 2
    ensures Trunc(g, 8) == Trunc(g, 4) + 16 * Trunc(g4, 4)
  {
    assert Trunc(g3, 5) == Trunc(g4, 4) * 2 + g3 % 2 && Trunc(g3, 1) == g3 % 2;
    assert Trunc(g2, 6) == Trunc(g3, 5) * 2 + g2 % 2 && Trunc(g2, 2) == Trunc(g3, 1) * 2 + g2 % 2;
    assert Trunc(g1, 7) == Trunc(g2, 6) * 2 + g1 % 2 && Trunc(g1, 3) == Trunc(g2, 2) * 2 + g1 % 2;
  }

  lemma {:induction false} TruncByte(g: nat)
    ensures Trunc(g, 8) == g % 256
  {
    hide Trunc;
    TruncNibble(g);
    TruncNibble(g / 16);
    Halves(g);
    ByteOfNibbles(g);
    TruncSplit(g, g / 2, g / 4, g / 8, g / 16);
  }

  lemma {:induction false} Halves(g: nat)
    ensures g / 2 / 2 == g / 4 && g / 4 / 2 == g / 8 && g / 8 / 2 == g / 16
  {
  }

  lemma {:induction false} ByteOfNibbles(g: nat)
    ensures g % 256 == g % 16 + 16 * (g / 16 % 16)
  {
    var q, r := g / 16, g % 16;
    var k, s := q / 16, q % 16;
    RemainderIs(g, k, 16 * s + r);
  }

  lemma {:induction false} RemainderIs(g: nat, k: nat, r: nat)
    requires g == 256 * k + r && r < 256
    ensures g % 256 == r
  {
  }

  lemma {:induction false} LowBitTrunc(g: nat, k: nat)
    requires Trunc(g, k) > 0
    ensures g > 0 && LowBit(g) == LowBit(Trunc(g, k))
  {
    if g % 2 == 0 {
      LowBitTrunc(g / 2, k - 1);
    }
  }

  lemma {:induction false} LowBitTimes16(g: nat)
    requires g > 0
    ensures LowBit(16 * g) == 4 + LowBit(g)
  {
    assert 16 * g / 2 == 8 * g && 8 * g / 2 == 4 * g && 4 * g / 2 == 2 * g && 2 * g / 2 == g;
    assert LowBit(16 * g) == 1 + LowBit(8 * g);
    assert LowBit(8 * g) == 1 + LowBit(4 * g);
    assert LowBit(4 * g) == 1 + LowBit(2 * g);
  }

  /** The table holds the lowest bit of every non-zero byte. */
  lemma {:induction false} TableIsLowBit(b: nat)
    requires 0 < b < 256
    ensures LowestBitmap(b) == LowBit(b)
  {
    if b % 16 == 0 {
      LowBitTimes16(b / 16);
      NibbleLow(b / 16);
    } else {
      TruncNibble(b);
      LowBitTrunc(b, 4);
      NibbleLow(b % 16);
    }
  }

  lemma {:induction false} LowBitByte(g: nat)
    requires g > 0
    ensures g % 256 != 0 ==> LowBit(g) == LowBit(g % 256)
    ensures g % 256 == 0 ==> LowBit(g) == 8 + LowBit(g / 256)
  {
    if g % 256 != 0 {
      TruncByte(g);
      LowBitTrunc(g, 8);
    } else {
      var h := g / 256;
      LowBitTimes16(16 * h);
      LowBitTimes16(h);
    }
  }

  lemma {:induction false} Pow2Of8()
    ensures Pow2(8) == 256 && Pow2(5) == 32 && Pow2(32) == 0x1_0000_0000
  {
    assert Pow2(4) == 16;
    assert Pow2(8) == 16 * Pow2(4);
    assert Pow2(12) == 16 * Pow2(8);
    assert Pow2(16) == 16 * Pow2(12);
    assert Pow2(20) == 16 * Pow2(16);
    assert Pow2(24) == 16 * Pow2(20);
    assert Pow2(28) == 16 * Pow2(24);
    assert Pow2(32) == 16 * Pow2(28);
  }

  /** The lookup of rt_schedule in a 32-bit group */
  function Lowest32(g: nat): nat
    requires g < 0x1_0000_0000
  {
    if g % 256 != 0 then LowestBitmap(g % 256)
    else if g / 0x100 % 256 != 0 then LowestBitmap(g / 0x100 % 256) + 8
    else if g / 0x1_0000 % 256 != 0 then LowestBitmap(g / 0x1_0000 % 256) + 16
    else LowestBitmap(g / 0x100_0000 % 256) + 24
  }

  /** The byte-wise lookup finds the lowest bit of every non-zero 32-bit word. */
  lemma {:induction false} Lowest32IsLowBit(g: nat)
    requires 0 < g < 0x1_0000_0000
    ensures Lowest32(g) == LowBit(g)
  {
    hide LowestBitmap, LowBit;
    var a, b, c := g / 0x100, g / 0x1_0000, g / 0x100_0000;
    assert a / 256 == b && b / 256 == c;
    LowBitByte(g);
    if g % 256 != 0 {
      TableIsLowBit(g % 256);
    } else {
      LowBitByte(a);
      if a % 256 != 0 {
        TableIsLowBit(a % 256);
      } else {
        LowBitByte(b);
        if b % 256 != 0 {
          TableIsLowBit(b % 256);
        } else {
          LowBitByte(c);
          assert c % 256 == c;
          TableIsLowBit(c);
        }
      }
    }
  }
}

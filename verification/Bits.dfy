/** The bit macros of include/bitops.h and include/mm.h on 32-bit words.

    A word is an integer below 2^32 and every operator is defined bit by bit, so a field
    is related to ordinary arithmetic by proof and not by a built-in conversion. */
module Bits {

  type Word = x: int | 0 <= x < 0x1_0000_0000

  const ALL_ONES: Word := 0xFFFF_FFFF

  function Pow2(n: nat): (p: nat)
    ensures p >= 1
  {
    if n == 0 then 1 else 2 * Pow2(n - 1)
  }

  /** Bit k of x. */
  predicate Bit(x: nat, k: nat) {
    if k == 0 then x % 2 == 1 else Bit(x / 2, k - 1)
  }

  // ---------------------------------------------------------------- operators

  function And(a: nat, b: nat): (r: nat)
    ensures r <= a
  {
    if a == 0 then 0 else 2 * And(a / 2, b / 2) + (if a % 2 == 1 && b % 2 == 1 then 1 else 0)
  }

  function Or(a: nat, b: nat): (r: nat)
    decreases a + b
  {
    if a + b == 0 then 0 else 2 * Or(a / 2, b / 2) + (if a % 2 == 1 || b % 2 == 1 then 1 else 0)
  }

  function Not(x: Word): Word {
    ALL_ONES - x
  }

  function Shl(x: Word, n: nat): Word
    decreases n
  {
    if n == 0 then x else Shl(2 * x % 0x1_0000_0000, n - 1)
  }

  function Shr(x: nat, n: nat): (r: nat)
    ensures r <= x
    decreases n
  {
    if n == 0 then x else Shr(x / 2, n - 1)
  }

  /** GENMASK(h, l): ones from bit l to bit h. */
  function GenMask(h: nat, l: nat): Word
    requires l <= h < 32
  {
    And(Shl(ALL_ONES, l), Shr(ALL_ONES, 31 - h))
  }

  /** BIT(n). */
  function BitMask(n: nat): Word
    requires n < 32
  {
    Shl(1, n)
  }

  lemma Pow2Values()
    ensures Pow2(4) == 0x10 && Pow2(8) == 0x100 && Pow2(13) == 0x2000 && Pow2(16) == 0x1_0000
    ensures Pow2(21) == 0x20_0000 && Pow2(22) == 0x40_0000
    ensures Pow2(31) == 0x8000_0000 && Pow2(32) == 0x1_0000_0000
  {
    assert Pow2(2) == 4;
    assert Pow2(6) == 64;
    assert Pow2(10) == 1024;
    assert Pow2(12) == 4096;
    assert Pow2(14) == 0x4000;
    assert Pow2(18) == 0x4_0000;
    assert Pow2(20) == 0x10_0000;
    assert Pow2(24) == 0x100_0000;
    assert Pow2(26) == 0x400_0000;
    assert Pow2(28) == 0x1000_0000;
    assert Pow2(30) == 0x4000_0000;
  }

  // ---------------------------------------------------------------- bits of the operators

  lemma {:induction false} HighBitsZero(x: nat, w: nat, k: nat)
    requires x < Pow2(w) && w <= k
    ensures !Bit(x, k)
  {
    if k > 0 {
      if w > 0 { HighBitsZero(x / 2, w - 1, k - 1); } else { HighBitsZero(x / 2, 0, k - 1); }
    }
  }

  lemma {:induction false} BitsBound(x: nat, w: nat)
    requires forall k :: w <= k ==> !Bit(x, k)
    ensures x < Pow2(w)
    decreases w, x
  {
    if w > 0 {
      forall k | w - 1 <= k ensures !Bit(x / 2, k) { assert !Bit(x, k + 1); }
      BitsBound(x / 2, w - 1);
    } else if x > 0 {
      assert !Bit(x, 0);
      forall k: nat | 0 <= k ensures !Bit(x / 2, k) { assert !Bit(x, k + 1); }
      BitsBound(x / 2, 0);
    }
  }

  /** Two naturals with the same bits are the same number. */
  lemma {:induction false} SameBits(a: nat, b: nat)
    requires forall k: nat :: Bit(a, k) == Bit(b, k)
    ensures a == b
    decreases a + b
  {
    if a + b > 0 {
      assert Bit(a, 0) == Bit(b, 0);
      forall k: nat ensures Bit(a / 2, k) == Bit(b / 2, k) { assert Bit(a, k + 1) == Bit(b, k + 1); }
      SameBits(a / 2, b / 2);
    }
  }

  lemma {:induction false} BitAnd(a: nat, b: nat, k: nat)
    ensures Bit(And(a, b), k) <==> Bit(a, k) && Bit(b, k)
  {
    if a == 0 {
      HighBitsZero(0, 0, k);
    } else if k > 0 {
      BitAnd(a / 2, b / 2, k - 1);
    }
  }

  lemma BitHalf(x: nat, k: nat)
    requires k > 0
    ensures Bit(x, k) == Bit(x / 2, k - 1)
  {
  }

  lemma {:induction false} BitOr(a: nat, b: nat, k: nat)
    ensures Bit(Or(a, b), k) <==> Bit(a, k) || Bit(b, k)
  {
    if a + b == 0 {
      HighBitsZero(0, 0, k);
    } else {
      var r := Or(a, b);
      assert r / 2 == Or(a / 2, b / 2) && r % 2 == (if a % 2 == 1 || b % 2 == 1 then 1 else 0);
      hide Or;
      if k > 0 {
        BitOr(a / 2, b / 2, k - 1);
        BitHalf(r, k);
        BitHalf(a, k);
        BitHalf(b, k);
      }
    }
  }

  lemma OrWord(a: Word, b: Word)
    ensures Or(a, b) < 0x1_0000_0000
  {
    Pow2Values();
    forall k | 32 <= k ensures !Bit(Or(a, b), k) {
      BitOr(a, b, k);
      HighBitsZero(a, 32, k);
      HighBitsZero(b, 32, k);
    }
    BitsBound(Or(a, b), 32);
  }

  lemma {:induction false} BitComplement(x: nat, w: nat, k: nat)
    requires x < Pow2(w)
    ensures Bit(Pow2(w) - 1 - x, k) <==> k < w && !Bit(x, k)
  {
    if w == 0 {
      HighBitsZero(0, 0, k);
    } else {
      var y, p := Pow2(w) - 1 - x, Pow2(w - 1);
      assert Pow2(w) == 2 * p && y / 2 == p - 1 - x / 2 && (y % 2 == 1 <==> x % 2 == 0);
      hide Pow2;
      if k > 0 {
        BitComplement(x / 2, w - 1, k - 1);
        BitHalf(y, k);
        BitHalf(x, k);
      }
    }
  }

  lemma BitNot(x: Word, k: nat)
    ensures Bit(Not(x), k) <==> k < 32 && !Bit(x, k)
  {
    Pow2Values();
    BitComplement(x, 32, k);
  }

  lemma {:induction false} BitShr(x: nat, n: nat, k: nat)
    ensures Bit(Shr(x, n), k) <==> Bit(x, k + n)
    decreases n
  {
    if n > 0 { BitShr(x / 2, n - 1, k); }
  }

  lemma {:induction false} BitDropTop(x: nat, w: nat, k: nat)
    requires Pow2(w) <= x < 2 * Pow2(w)
    ensures Bit(x - Pow2(w), k) <==> k != w && Bit(x, k)
  {
    if w == 0 {
      HighBitsZero(0, 0, k);
      if k > 0 { HighBitsZero(0, 0, k - 1); }
    } else if k > 0 {
      BitDropTop(x / 2, w - 1, k - 1);
    }
  }

  lemma BitDouble(x: Word, k: nat)
    ensures Bit(2 * x % 0x1_0000_0000, k) <==> 1 <= k < 32 && Bit(x, k - 1)
  {
    Pow2Values();
    if x < 0x8000_0000 {
      assert 2 * x % 0x1_0000_0000 == 2 * x;
      assert k > 0 ==> Bit(2 * x, k) == Bit(x, k - 1);
      if k >= 32 { HighBitsZero(2 * x, 32, k); }
    } else {
      var y := x - 0x8000_0000;
      assert 2 * x % 0x1_0000_0000 == 2 * y;
      assert k > 0 ==> Bit(2 * y, k) == Bit(y, k - 1);
      if k > 0 { BitDropTop(x, 31, k - 1); }
      if k >= 32 { HighBitsZero(2 * y, 32, k); }
    }
  }

  lemma {:induction false} BitShl(x: Word, n: nat, k: nat)
    ensures Bit(Shl(x, n), k) <==> n <= k < 32 && Bit(x, k - n)
    decreases n
  {
    if n == 0 {
      Pow2Values();
      if k >= 32 { HighBitsZero(x, 32, k); }
    } else {
      BitShl(2 * x % 0x1_0000_0000, n - 1, k);
      if n - 1 <= k { BitDouble(x, k - (n - 1)); }
    }
  }

  lemma BitAllOnes(k: nat)
    ensures Bit(ALL_ONES, k) <==> k < 32
  {
    Pow2Values();
    HighBitsZero(0, 0, k);
    BitComplement(0, 32, k);
  }

  lemma BitGenMask(h: nat, l: nat, k: nat)
    requires l <= h < 32
    ensures Bit(GenMask(h, l), k) <==> l <= k <= h
  {
    BitAnd(Shl(ALL_ONES, l), Shr(ALL_ONES, 31 - h), k);
    BitShl(ALL_ONES, l, k);
    BitShr(ALL_ONES, 31 - h, k);
    BitAllOnes(k + (31 - h));
    if l <= k { BitAllOnes(k - l); }
  }

  lemma {:induction false} Pow2Monotone(a: nat, b: nat)
    requires a <= b
    ensures Pow2(a) <= Pow2(b)
  {
    if a < b { Pow2Monotone(a, b - 1); }
  }

  lemma GenMaskValue(h: nat, l: nat)
    requires l <= h < 32
    ensures GenMask(h, l) == Pow2(h + 1) - Pow2(l)
  {
    Pow2Monotone(l, h + 1);
    forall k: nat ensures Bit(GenMask(h, l), k) == Bit(Pow2(h + 1) - Pow2(l), k) {
      BitGenMask(h, l, k);
      HighBitsZero(0, 0, k);
      BitComplement(0, l, k);
      BitComplement(Pow2(l) - 1, h + 1, k);
    }
    SameBits(GenMask(h, l), Pow2(h + 1) - Pow2(l));
  }

  lemma BitBitMask(n: nat, k: nat)
    requires n < 32
    ensures Bit(BitMask(n), k) <==> k == n
  {
    BitShl(1, n, k);
    if n < k { HighBitsZero(1, 1, k - n); }
  }

  // ---------------------------------------------------------------- fields

  /** GETVAL(v, mask, off). */
  function GetVal(v: Word, mask: Word, off: nat): Word {
    Shr(And(v, mask), off)
  }

  /** SETVAL(v, value, mask, off): the new value of v. */
  function SetVal(v: Word, value: Word, mask: Word, off: nat): Word {
    OrWord(And(v, Not(mask)), And(Shl(value, off), mask));
    Or(And(v, Not(mask)), And(Shl(value, off), mask))
  }

  /** SETBIT(v, mask): the new value of v. */
  function SetBit(v: Word, mask: Word): Word {
    OrWord(v, mask);
    Or(v, mask)
  }

  /** CLRBIT(v, mask): the new value of v. */
  function ClrBit(v: Word, mask: Word): Word {
    And(v, Not(mask))
  }

  /** What SETVAL does to each bit, for any field [l, h]. */
  lemma BitSetVal(v: Word, value: Word, h: nat, l: nat, k: nat)
    requires l <= h < 32
    ensures Bit(SetVal(v, value, GenMask(h, l), l), k)
       <==> if l <= k <= h then Bit(value, k - l) else Bit(v, k)
  {
    var mask := GenMask(h, l);
    BitOr(And(v, Not(mask)), And(Shl(value, l), mask), k);
    BitAnd(v, Not(mask), k);
    BitAnd(Shl(value, l), mask, k);
    BitNot(mask, k);
    BitGenMask(h, l, k);
    BitShl(value, l, k);
    Pow2Values();
    if k >= 32 { HighBitsZero(v, 32, k); }
  }

  lemma BitGetVal(v: Word, h: nat, l: nat, k: nat)
    requires l <= h < 32
    ensures Bit(GetVal(v, GenMask(h, l), l), k) <==> k + l <= h && Bit(v, k + l)
  {
    BitShr(And(v, GenMask(h, l)), l, k);
    BitAnd(v, GenMask(h, l), k + l);
    BitGenMask(h, l, k + l);
  }

  /** A value that fits a field is read back from it, whatever the word held before. */
  lemma FieldRoundTrip(v: Word, value: Word, h: nat, l: nat)
    requires l <= h < 32 && value < Pow2(h - l + 1)
    ensures GetVal(SetVal(v, value, GenMask(h, l), l), GenMask(h, l), l) == value
  {
    var w := SetVal(v, value, GenMask(h, l), l);
    forall k: nat ensures Bit(GetVal(w, GenMask(h, l), l), k) == Bit(value, k) {
      BitGetVal(w, h, l, k);
      BitSetVal(v, value, h, l, k + l);
      if k + l > h { HighBitsZero(value, h - l + 1, k); }
    }
    SameBits(GetVal(w, GenMask(h, l), l), value);
  }

  /** Words that agree on a field read the same there. */
  lemma FieldFrame(v: Word, w: Word, h: nat, l: nat)
    requires l <= h < 32
    requires forall k :: l <= k <= h ==> Bit(v, k) == Bit(w, k)
    ensures GetVal(v, GenMask(h, l), l) == GetVal(w, GenMask(h, l), l)
  {
    var a, b := GetVal(v, GenMask(h, l), l), GetVal(w, GenMask(h, l), l);
    forall k: nat ensures Bit(a, k) == Bit(b, k) {
      BitGetVal(v, h, l, k);
      BitGetVal(w, h, l, k);
    }
    SameBits(a, b);
  }

  // ---------------------------------------------------------------- NBITS

  function NBits2(n: Word): nat { if And(n, 2) != 0 then 1 else 0 }
  function NBits4(n: Word): nat { if And(n, 0xC) != 0 then 2 + NBits2(Shr(n, 2)) else NBits2(n) }
  function NBits8(n: Word): nat { if And(n, 0xF0) != 0 then 4 + NBits4(Shr(n, 4)) else NBits4(n) }
  function NBits16(n: Word): nat { if And(n, 0xFF00) != 0 then 8 + NBits8(Shr(n, 8)) else NBits8(n) }
  function NBits32(n: Word): nat { if And(n, 0xFFFF_0000) != 0 then 16 + NBits16(Shr(n, 16)) else NBits16(n) }

  /** NBITS(n). */
  function NBits(n: Word): nat { if n == 0 then 0 else NBits32(n) }

  /** For n below 2^(h+1), the mask of bits [l, h] meets n exactly when n reaches 2^l. */
  lemma MaskTest(n: Word, h: nat, l: nat)
    requires l <= h < 32 && n < Pow2(h + 1)
    ensures And(n, GenMask(h, l)) != 0 <==> n >= Pow2(l)
  {
    var m := And(n, GenMask(h, l));
    if m == 0 {
      forall k | l <= k ensures !Bit(n, k) {
        BitAnd(n, GenMask(h, l), k);
        BitGenMask(h, l, k);
        HighBitsZero(0, 0, k);
        if k > h { HighBitsZero(n, h + 1, k); }
      }
      BitsBound(n, l);
    } else if n < Pow2(l) {
      forall k: nat ensures Bit(m, k) == Bit(0, k) {
        BitAnd(n, GenMask(h, l), k);
        BitGenMask(h, l, k);
        HighBitsZero(0, 0, k);
        if l <= k { HighBitsZero(n, l, k); }
      }
      SameBits(m, 0);
    }
  }

  lemma {:induction false} ShrBounds(n: nat, s: nat, e: nat)
    ensures Pow2(e + s) <= n < Pow2(e + 1 + s) <==> Pow2(e) <= Shr(n, s) < Pow2(e + 1)
    decreases s
  {
    if s > 0 { ShrBounds(n / 2, s - 1, e); }
  }

  lemma {:induction false} ShrBelow(n: nat, s: nat, w: nat)
    requires n < Pow2(w + s)
    ensures Shr(n, s) < Pow2(w)
    decreases s
  {
    if s > 0 { ShrBelow(n / 2, s - 1, w); }
  }

  lemma {:induction false} ShrAbove(n: nat, s: nat)
    requires n >= Pow2(s)
    ensures Shr(n, s) >= 1
    decreases s
  {
    if s > 0 { ShrAbove(n / 2, s - 1); }
  }

  ghost predicate IsFloorLog(n: nat, e: nat) {
    Pow2(e) <= n < Pow2(e + 1)
  }

  lemma NBits2IsFloorLog(n: Word)
    requires 1 <= n < 4
    ensures IsFloorLog(n, NBits2(n))
  {
    hide And, GenMask;
    MaskTest(n, 1, 1);
    GenMaskValue(1, 1);
  }

  lemma NBits4IsFloorLog(n: Word)
    requires 1 <= n < 16
    ensures IsFloorLog(n, NBits4(n))
  {
    hide And, Shr, GenMask, NBits2;
    Pow2Values();
    MaskTest(n, 3, 2);
    GenMaskValue(3, 2);
    if n >= Pow2(2) {
      ShrBelow(n, 2, 2);
      ShrAbove(n, 2);
      NBits2IsFloorLog(Shr(n, 2));
      ShrBounds(n, 2, NBits2(Shr(n, 2)));
    } else {
      NBits2IsFloorLog(n);
    }
  }

  lemma NBits8IsFloorLog(n: Word)
    requires 1 <= n < 256
    ensures IsFloorLog(n, NBits8(n))
  {
    hide And, Shr, GenMask, NBits4;
    Pow2Values();
    MaskTest(n, 7, 4);
    GenMaskValue(7, 4);
    if n >= Pow2(4) {
      ShrBelow(n, 4, 4);
      ShrAbove(n, 4);
      NBits4IsFloorLog(Shr(n, 4));
      ShrBounds(n, 4, NBits4(Shr(n, 4)));
    } else {
      NBits4IsFloorLog(n);
    }
  }

  lemma NBits16IsFloorLog(n: Word)
    requires 1 <= n < 0x1_0000
    ensures IsFloorLog(n, NBits16(n))
  {
    hide And, Shr, GenMask, NBits8;
    Pow2Values();
    MaskTest(n, 15, 8);
    GenMaskValue(15, 8);
    if n >= Pow2(8) {
      ShrBelow(n, 8, 8);
      ShrAbove(n, 8);
      NBits8IsFloorLog(Shr(n, 8));
      ShrBounds(n, 8, NBits8(Shr(n, 8)));
    } else {
      NBits8IsFloorLog(n);
    }
  }

  lemma NBits32IsFloorLog(n: Word)
    requires n > 0
    ensures IsFloorLog(n, NBits32(n))
  {
    hide And, Shr, GenMask, NBits16;
    Pow2Values();
    MaskTest(n, 31, 16);
    GenMaskValue(31, 16);
    if n >= Pow2(16) {
      ShrBelow(n, 16, 16);
      ShrAbove(n, 16);
      NBits16IsFloorLog(Shr(n, 16));
      ShrBounds(n, 16, NBits16(Shr(n, 16)));
    } else {
      NBits16IsFloorLog(n);
    }
  }

  /** NBITS is the floor of the base-2 logarithm, for every non-zero 32-bit word. */
  lemma NBitsIsFloorLog(n: Word)
    requires n > 0
    ensures Pow2(NBits(n)) <= n < Pow2(NBits(n) + 1)
  {
    NBits32IsFloorLog(n);
  }
}

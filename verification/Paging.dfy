/** Addresses and page table entries: the field layout of include/mm.h and the two
    setters of src/mm.c. */
module Paging {
  import opened Bits

  const PAGESZ: nat := 256
  const MAX_PGN: nat := 16384
  const MAX_FPN: nat := 8192
  const PAGING_MEMRAMSZ: nat := 0x20_0000
  const MAX_SWPOFF: nat := 0x20_0000

  // The lowest bit of the page number field, NBITS(PAGING_PAGESZ).
  const PGN_LOBIT: nat := 8
  const PGN_HIBIT: nat := 21

  const PRESENT_MASK: Word := BitMask(31)
  const SWAPPED_MASK: Word := BitMask(30)

  /** PAGING_PGN. */
  function Pgn(addr: Word): Word {
    GetVal(addr, GenMask(PGN_HIBIT, PGN_LOBIT), PGN_LOBIT)
  }

  /** PAGING_OFFST. */
  function Offst(addr: Word): Word {
    GetVal(addr, GenMask(PGN_LOBIT - 1, 0), 0)
  }

  /** PAGING_PAGE_ALIGNSZ. */
  function AlignSz(sz: nat): (r: nat) {
    (sz + PAGESZ - 1) / PAGESZ * PAGESZ
  }

  /** PAGING_PAGE_PRESENT. */
  predicate Present(pte: Word) {
    And(pte, PRESENT_MASK) != 0
  }

  /** PAGING_FPN, PAGING_PTE_FPN. */
  function PteFpn(pte: Word): Word {
    GetVal(pte, GenMask(12, 0), 0)
  }

  /** PAGING_PTE_SWP. */
  function PteSwp(pte: Word): Word {
    GetVal(pte, GenMask(25, 5), 5)
  }

  /** pte_set_fpn: the entry it leaves behind. */
  function PteSetFpn(pte: Word, fpn: Word): Word {
    SetVal(ClrBit(SetBit(pte, PRESENT_MASK), SWAPPED_MASK), fpn, GenMask(12, 0), 0)
  }

  /** pte_set_swap: the entry it leaves behind. */
  function PteSetSwap(pte: Word, swptyp: Word, swpoff: Word): Word {
    var flagged := SetBit(SetBit(pte, PRESENT_MASK), SWAPPED_MASK);
    SetVal(SetVal(flagged, swptyp, GenMask(4, 0), 0), swpoff, GenMask(25, 5), 5)
  }

  // ---------------------------------------------------------------- addresses

  lemma {:induction false} ShrIsDivision(x: nat, n: nat)
    ensures Pow2(n) * Shr(x, n) <= x < Pow2(n) * Shr(x, n) + Pow2(n)
    decreases n
  {
    if n > 0 {
      ShrIsDivision(x / 2, n - 1);
      assert Pow2(n) * Shr(x, n) == 2 * (Pow2(n - 1) * Shr(x / 2, n - 1));
    }
  }

  lemma AndOddHalf(x: nat, b: nat)
    requires b % 2 == 1
    ensures And(x, b) == 2 * And(x / 2, b / 2) + x % 2
  {
  }

  lemma {:induction false} AndZero(x: nat)
    ensures And(x, 0) == 0
  {
    if x > 0 { AndZero(x / 2); }
  }

  lemma {:induction false} AndLowBits(x: nat, n: nat, ones: nat)
    requires ones == Pow2(n) - 1
    ensures And(x, ones) == x - Pow2(n) * Shr(x, n)
    decreases n
  {
    hide And;
    if n == 0 {
      AndZero(x);
    } else {
      var p, q := Pow2(n - 1), Shr(x / 2, n - 1);
      AndLowBits(x / 2, n - 1, p - 1);
      AndOddHalf(x, ones);
      assert ones / 2 == p - 1;
      assert Pow2(n) * Shr(x, n) == 2 * (p * q);
    }
  }

  /** The page number starts at bit NBITS(256) = 8. */
  lemma PageFieldLayout()
    ensures NBits(PAGESZ) == PGN_LOBIT
  {
    NBitsIsFloorLog(PAGESZ);
    Pow2Values();
    var e := NBits(PAGESZ);
    if e < 8 { Pow2Monotone(e + 1, 8); }
    if e > 8 { Pow2Monotone(9, e); }
  }

  lemma PowFourteen()
    ensures Pow2(14) == 16384
  {
    assert Pow2(8) == 256 by { Pow2Values(); }
    assert Pow2(11) == 2048;
  }

  lemma NoShift(x: nat)
    ensures Shr(x, 0) == x
  {
  }

  lemma PageIsLowBits(addr: Word)
    ensures Pgn(addr) == And(Shr(addr, 8), GenMask(13, 0))
  {
    hide And, Shr, GenMask, Bit, Pow2;
    forall k: nat ensures Bit(Pgn(addr), k) == Bit(And(Shr(addr, 8), GenMask(13, 0)), k) {
      BitGetVal(addr, PGN_HIBIT, PGN_LOBIT, k);
      BitAnd(Shr(addr, 8), GenMask(13, 0), k);
      BitGenMask(13, 0, k);
      BitShr(addr, 8, k);
    }
    SameBits(Pgn(addr), And(Shr(addr, 8), GenMask(13, 0)));
  }

  /** Page number and offset of any 32-bit address: the quotient by 256, cut to the 22-bit bus, and the
      rest. */
  lemma AddressFields(addr: Word)
    ensures Pgn(addr) == addr / 256 % 16384 && Offst(addr) == addr % 256
  {
    hide And, Shr, GenMask;
    var page := Shr(addr, 8);
    assert Pow2(8) == 256 && Pow2(14) == 16384 by { Pow2Values(); PowFourteen(); }
    PageIsLowBits(addr);
    GenMaskValue(13, 0);
    GenMaskValue(7, 0);
    ShrIsDivision(addr, 8);
    ShrIsDivision(page, 14);
    AndLowBits(page, 14, 16383);
    AndLowBits(addr, 8, 255);
    assert Offst(addr) == And(addr, 255) by { NoShift(And(addr, 255)); }
  }

  /** An address on the 22-bit bus is its page number times 256 plus its offset. */
  lemma AddressSplit(addr: Word)
    requires addr < 0x40_0000
    ensures Pgn(addr) == addr / PAGESZ && Offst(addr) == addr % PAGESZ
  {
    AddressFields(addr);
    hide Pgn, Offst;
  }

  /** Page alignment rounds up to the next multiple of 256 and aligning twice changes nothing. */
  lemma AlignSzRoundsUp(sz: nat)
    ensures sz <= AlignSz(sz) < sz + PAGESZ && AlignSz(sz) % PAGESZ == 0
    ensures AlignSz(AlignSz(sz)) == AlignSz(sz)
    ensures AlignSz(sz) / PAGESZ * PAGESZ == AlignSz(sz)
  {
    var q := (sz + PAGESZ - 1) / PAGESZ;
    assert AlignSz(sz) == q * PAGESZ;
    assert (q * PAGESZ + 255) / PAGESZ == q;
  }

  // ---------------------------------------------------------------- page table entries

  lemma BitSetBit(v: Word, n: nat, k: nat)
    requires n < 32
    ensures Bit(SetBit(v, BitMask(n)), k) <==> k == n || Bit(v, k)
  {
    BitOr(v, BitMask(n), k);
    BitBitMask(n, k);
  }

  lemma BitClrBit(v: Word, n: nat, k: nat)
    requires n < 32
    ensures Bit(ClrBit(v, BitMask(n)), k) <==> k != n && Bit(v, k)
  {
    BitAnd(v, Not(BitMask(n)), k);
    BitNot(BitMask(n), k);
    BitBitMask(n, k);
    Pow2Values();
    if k >= 32 { HighBitsZero(v, 32, k); }
  }

  lemma PresentIsBit31(pte: Word)
    ensures Present(pte) <==> Bit(pte, 31)
  {
    BitAnd(pte, PRESENT_MASK, 31);
    BitBitMask(31, 31);
    HighBitsZero(0, 0, 31);
    if !Bit(pte, 31) {
      forall k: nat ensures Bit(And(pte, PRESENT_MASK), k) == Bit(0, k) {
        BitAnd(pte, PRESENT_MASK, k);
        BitBitMask(31, k);
        HighBitsZero(0, 0, k);
      }
      SameBits(And(pte, PRESENT_MASK), 0);
    }
  }

  /** pte_set_fpn bit by bit: present set, swapped cleared, frame number written, rest kept. */
  lemma PteSetFpnBits(pte: Word, fpn: Word, k: nat)
    ensures Bit(PteSetFpn(pte, fpn), k)
       <==> if k <= 12 then Bit(fpn, k) else if k == 31 then true else if k == 30 then false else Bit(pte, k)
  {
    var present := SetBit(pte, PRESENT_MASK);
    BitSetVal(ClrBit(present, SWAPPED_MASK), fpn, 12, 0, k);
    BitClrBit(present, 30, k);
    BitSetBit(pte, 31, k);
  }

  /** pte_set_swap bit by bit. The present bit is set, not cleared. */
  lemma PteSetSwapBits(pte: Word, swptyp: Word, swpoff: Word, k: nat)
    ensures Bit(PteSetSwap(pte, swptyp, swpoff), k)
       <==> if k <= 4 then Bit(swptyp, k) else if k <= 25 then Bit(swpoff, k - 5)
            else if k == 31 || k == 30 then true else Bit(pte, k)
  {
    var present := SetBit(pte, PRESENT_MASK);
    var flagged := SetBit(present, SWAPPED_MASK);
    BitSetVal(SetVal(flagged, swptyp, GenMask(4, 0), 0), swpoff, 25, 5, k);
    BitSetVal(flagged, swptyp, 4, 0, k);
    BitSetBit(present, 30, k);
    BitSetBit(pte, 31, k);
  }

  /** What the two getters read, for any entry. */
  lemma PteFieldBits(pte: Word, k: nat)
    ensures Bit(PteFpn(pte), k) <==> k <= 12 && Bit(pte, k)
    ensures Bit(PteSwp(pte), k) <==> k <= 20 && Bit(pte, k + 5)
  {
    hide And, Shr, GenMask, Bit;
    BitGetVal(pte, 12, 0, k);
    BitGetVal(pte, 25, 5, k);
  }

  lemma FieldBound(v: Word, h: nat, l: nat)
    requires l <= h < 32
    ensures GetVal(v, GenMask(h, l), l) < Pow2(h - l + 1)
  {
    forall k | h - l + 1 <= k ensures !Bit(GetVal(v, GenMask(h, l), l), k) { BitGetVal(v, h, l, k); }
    BitsBound(GetVal(v, GenMask(h, l), l), h - l + 1);
  }

  /** A frame number survives the entry exactly when it fits the 13-bit field. */
  lemma PteFpnRoundTrip(pte: Word, fpn: Word)
    ensures Present(PteSetFpn(pte, fpn))
    ensures PteFpn(PteSetFpn(pte, fpn)) == fpn <==> fpn < MAX_FPN
  {
    PteSetFpnBits(pte, fpn, 31);
    PresentIsBit31(PteSetFpn(pte, fpn));
    Pow2Values();
    FieldBound(PteSetFpn(pte, fpn), 12, 0);
    if fpn < MAX_FPN {
      FieldRoundTrip(ClrBit(SetBit(pte, PRESENT_MASK), SWAPPED_MASK), fpn, 12, 0);
    }
  }

  /** A swap offset survives the entry exactly when it fits the 21-bit field; the swapped page
      still reads as present. */
  lemma PteSwpRoundTrip(pte: Word, swptyp: Word, swpoff: Word)
    ensures PteSwp(PteSetSwap(pte, swptyp, swpoff)) == swpoff <==> swpoff < MAX_SWPOFF
    ensures Present(PteSetSwap(pte, swptyp, swpoff))
  {
    var pte' := PteSetSwap(pte, swptyp, swpoff);
    PteSetSwapBits(pte, swptyp, swpoff, 31);
    PresentIsBit31(pte');
    Pow2Values();
    FieldBound(pte', 25, 5);
    if swpoff < MAX_SWPOFF {
      var flagged := SetBit(SetBit(pte, PRESENT_MASK), SWAPPED_MASK);
      FieldRoundTrip(SetVal(flagged, swptyp, GenMask(4, 0), 0), swpoff, 25, 5);
    }
  }
}

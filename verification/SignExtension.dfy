/** Sign extension of the low bits of an offset gives the offset back. */
module SignExtension {
  import opened Decoder

  /**
   * The offset fits the signed field whose sign bit is the lowest bit of `top`: the bits of `top`
   * all agree.
   */
  predicate Fits(offset: bv64, top: bv64) {
    offset & top == 0 || offset & top == top
  }

  /** As a signed number, the offset lies in [-half, half). */
  predicate SignedRange(offset: bv64, half: bv64) {
    offset < half || 0 - half <= offset
  }

  lemma Range8(offset: bv64)
    ensures Fits(offset, 0xFFFF_FFFF_FFFF_FF80) <==> SignedRange(offset, 0x80)
  {
  }

  lemma Range12(offset: bv64)
    ensures Fits(offset, 0xFFFF_FFFF_FFFF_F800) <==> SignedRange(offset, 0x800)
  {
  }

  lemma Range17(offset: bv64)
    ensures Fits(offset, 0xFFFF_FFFF_FFFF_0000) <==> SignedRange(offset, 0x10000)
  {
  }

  lemma Range21(offset: bv64)
    ensures Fits(offset, 0xFFFF_FFFF_FFF0_0000) <==> SignedRange(offset, 0x100000)
  {
  }

  lemma Range24(offset: bv64)
    ensures Fits(offset, 0xFFFF_FFFF_FF80_0000) <==> SignedRange(offset, 0x800000)
  {
  }

  lemma Range28(offset: bv64)
    ensures Fits(offset, 0xFFFF_FFFF_F800_0000) <==> SignedRange(offset, 0x8000000)
  {
  }

  lemma Range32(offset: bv64)
    ensures Fits(offset, 0xFFFF_FFFF_8000_0000) <==> SignedRange(offset, 0x80000000)
  {
  }

  function Low32(x: bv64): bv32 {
    (x & 0xFFFF_FFFF) as bv32
  }

  // 22-bit immediates.

  lemma NonNegative22(offset: bv64, x: bv32)
    requires offset & 0xFFFFFFFFFF800000 == 0 && offset & 3 == 0 && x == Low32(offset >> 2) & 0x003FFFFF
    ensures x & 0xFFE00000 == 0
  {
  }

  lemma NonNegativeValue22(offset: bv64, x: bv32)
    requires offset & 0xFFFFFFFFFF800000 == 0 && offset & 3 == 0 && x == Low32(offset >> 2) & 0x003FFFFF
    ensures Times4(x as bv64) == offset
  {
  }

  lemma Negative22(offset: bv64, x: bv32)
    requires offset & 0xFFFFFFFFFF800000 == 0xFFFFFFFFFF800000 && offset & 3 == 0
             && x == Low32(offset >> 2) & 0x003FFFFF
    ensures x & 0xFFE00000 == 0x00200000
  {
  }

  lemma NegativeValue22(offset: bv64, x: bv32)
    requires offset & 0xFFFFFFFFFF800000 == 0xFFFFFFFFFF800000 && offset & 3 == 0
             && x == Low32(offset >> 2) & 0x003FFFFF
    ensures Times4((x | 0xFFC00000) as bv64 | 0xFFFF_FFFF_0000_0000) == offset
  {
  }

  lemma ExtendNonNegative22(x: bv32)
    requires x & 0xFFE00000 == 0
    ensures Widen(Asr(x << 10, 10)) == x as bv64
  {
  }

  lemma ExtendNegative22(x: bv32)
    requires x & 0xFFE00000 == 0x00200000
    ensures Widen(Asr(x << 10, 10)) == (x | 0xFFC00000) as bv64 | 0xFFFF_FFFF_0000_0000
  {
  }

  lemma Signed22(offset: bv64, x: bv32)
    requires Fits(offset, 0xFFFFFFFFFF800000) && offset & 3 == 0 && x == Low32(offset >> 2) & 0x003FFFFF
    ensures Times4(Widen(Asr(x << 10, 10))) == offset
  {
    if offset & 0xFFFFFFFFFF800000 == 0 {
      NonNegative22(offset, x);
      ExtendNonNegative22(x);
      NonNegativeValue22(offset, x);
    } else {
      Negative22(offset, x);
      ExtendNegative22(x);
      NegativeValue22(offset, x);
    }
  }

  // 15-bit immediates.

  lemma NonNegative15(offset: bv64, x: bv32)
    requires offset & 0xFFFFFFFFFFFF0000 == 0 && offset & 3 == 0 && x == Low32(offset >> 2) & 0x00007FFF
    ensures x & 0xFFFFC000 == 0
  {
  }

  lemma NonNegativeValue15(offset: bv64, x: bv32)
    requires offset & 0xFFFFFFFFFFFF0000 == 0 && offset & 3 == 0 && x == Low32(offset >> 2) & 0x00007FFF
    ensures Times4(x as bv64) == offset
  {
  }

  lemma Negative15(offset: bv64, x: bv32)
    requires offset & 0xFFFFFFFFFFFF0000 == 0xFFFFFFFFFFFF0000 && offset & 3 == 0
             && x == Low32(offset >> 2) & 0x00007FFF
    ensures x & 0xFFFFC000 == 0x00004000
  {
  }

  lemma NegativeValue15(offset: bv64, x: bv32)
    requires offset & 0xFFFFFFFFFFFF0000 == 0xFFFFFFFFFFFF0000 && offset & 3 == 0
             && x == Low32(offset >> 2) & 0x00007FFF
    ensures Times4((x | 0xFFFF8000) as bv64 | 0xFFFF_FFFF_0000_0000) == offset
  {
  }

  lemma ExtendNonNegative15(x: bv32)
    requires x & 0xFFFFC000 == 0
    ensures Widen(Asr(x << 17, 17)) == x as bv64
  {
  }

  lemma ExtendNegative15(x: bv32)
    requires x & 0xFFFFC000 == 0x00004000
    ensures Widen(Asr(x << 17, 17)) == (x | 0xFFFF8000) as bv64 | 0xFFFF_FFFF_0000_0000
  {
  }

  lemma Signed15(offset: bv64, x: bv32)
    requires Fits(offset, 0xFFFFFFFFFFFF0000) && offset & 3 == 0 && x == Low32(offset >> 2) & 0x00007FFF
    ensures Times4(Widen(Asr(x << 17, 17))) == offset
  {
    if offset & 0xFFFFFFFFFFFF0000 == 0 {
      NonNegative15(offset, x);
      ExtendNonNegative15(x);
      NonNegativeValue15(offset, x);
    } else {
      Negative15(offset, x);
      ExtendNegative15(x);
      NegativeValue15(offset, x);
    }
  }

  // 26-bit immediates.

  lemma NonNegative26(offset: bv64, x: bv32)
    requires offset & 0xFFFFFFFFF8000000 == 0 && offset & 3 == 0 && x == Low32(offset >> 2) & 0x03FFFFFF
    ensures x & 0xFE000000 == 0
  {
  }

  lemma NonNegativeValue26(offset: bv64, x: bv32)
    requires offset & 0xFFFFFFFFF8000000 == 0 && offset & 3 == 0 && x == Low32(offset >> 2) & 0x03FFFFFF
    ensures Times4(x as bv64) == offset
  {
  }

  lemma Negative26(offset: bv64, x: bv32)
    requires offset & 0xFFFFFFFFF8000000 == 0xFFFFFFFFF8000000 && offset & 3 == 0
             && x == Low32(offset >> 2) & 0x03FFFFFF
    ensures x & 0xFE000000 == 0x02000000
  {
  }

  lemma NegativeValue26(offset: bv64, x: bv32)
    requires offset & 0xFFFFFFFFF8000000 == 0xFFFFFFFFF8000000 && offset & 3 == 0
             && x == Low32(offset >> 2) & 0x03FFFFFF
    ensures Times4((x | 0xFC000000) as bv64 | 0xFFFF_FFFF_0000_0000) == offset
  {
  }

  lemma ExtendNonNegative26(x: bv32)
    requires x & 0xFE000000 == 0
    ensures Widen(Asr(x << 6, 6)) == x as bv64
  {
  }

  lemma ExtendNegative26(x: bv32)
    requires x & 0xFE000000 == 0x02000000
    ensures Widen(Asr(x << 6, 6)) == (x | 0xFC000000) as bv64 | 0xFFFF_FFFF_0000_0000
  {
  }

  lemma Signed26(offset: bv64, x: bv32)
    requires Fits(offset, 0xFFFFFFFFF8000000) && offset & 3 == 0 && x == Low32(offset >> 2) & 0x03FFFFFF
    ensures Times4(Widen(Asr(x << 6, 6))) == offset
  {
    if offset & 0xFFFFFFFFF8000000 == 0 {
      NonNegative26(offset, x);
      ExtendNonNegative26(x);
      NonNegativeValue26(offset, x);
    } else {
      Negative26(offset, x);
      ExtendNegative26(x);
      NegativeValue26(offset, x);
    }
  }

  // 21-bit immediates.

  lemma NonNegative21(offset: bv64, x: bv32)
    requires offset & 0xFFFFFFFFFFF00000 == 0 && x == Low32(offset) & 0x001FFFFF
    ensures x & 0xFFF00000 == 0
  {
  }

  lemma NonNegativeValue21(offset: bv64, x: bv32)
    requires offset & 0xFFFFFFFFFFF00000 == 0 && x == Low32(offset) & 0x001FFFFF
    ensures x as bv64 == offset
  {
  }

  lemma Negative21(offset: bv64, x: bv32)
    requires offset & 0xFFFFFFFFFFF00000 == 0xFFFFFFFFFFF00000 && x == Low32(offset) & 0x001FFFFF
    ensures x & 0xFFF00000 == 0x00100000
  {
  }

  lemma NegativeValue21(offset: bv64, x: bv32)
    requires offset & 0xFFFFFFFFFFF00000 == 0xFFFFFFFFFFF00000 && x == Low32(offset) & 0x001FFFFF
    ensures (x | 0xFFE00000) as bv64 | 0xFFFF_FFFF_0000_0000 == offset
  {
  }

  lemma ExtendNonNegative21(x: bv32)
    requires x & 0xFFF00000 == 0
    ensures Widen(Asr(x << 11, 11)) == x as bv64
  {
  }

  lemma ExtendNegative21(x: bv32)
    requires x & 0xFFF00000 == 0x00100000
    ensures Widen(Asr(x << 11, 11)) == (x | 0xFFE00000) as bv64 | 0xFFFF_FFFF_0000_0000
  {
  }

  lemma Signed21(offset: bv64, x: bv32)
    requires Fits(offset, 0xFFFFFFFFFFF00000) && x == Low32(offset) & 0x001FFFFF
    ensures Widen(Asr(x << 11, 11)) == offset
  {
    if offset & 0xFFFFFFFFFFF00000 == 0 {
      NonNegative21(offset, x);
      ExtendNonNegative21(x);
      NonNegativeValue21(offset, x);
    } else {
      Negative21(offset, x);
      ExtendNegative21(x);
      NegativeValue21(offset, x);
    }
  }

  // 12-bit immediates.

  lemma NonNegative12(offset: bv64, x: bv32)
    requires offset & 0xFFFFFFFFFFFFF800 == 0 && x == Low32(offset) & 0x00000FFF
    ensures x & 0xFFFFF800 == 0
  {
  }

  lemma NonNegativeValue12(offset: bv64, x: bv32)
    requires offset & 0xFFFFFFFFFFFFF800 == 0 && x == Low32(offset) & 0x00000FFF
    ensures x as bv64 == offset
  {
  }

  lemma Negative12(offset: bv64, x: bv32)
    requires offset & 0xFFFFFFFFFFFFF800 == 0xFFFFFFFFFFFFF800 && x == Low32(offset) & 0x00000FFF
    ensures x & 0xFFFFF800 == 0x00000800
  {
  }

  lemma NegativeValue12(offset: bv64, x: bv32)
    requires offset & 0xFFFFFFFFFFFFF800 == 0xFFFFFFFFFFFFF800 && x == Low32(offset) & 0x00000FFF
    ensures (x | 0xFFFFF000) as bv64 | 0xFFFF_FFFF_0000_0000 == offset
  {
  }

  lemma ExtendNonNegative12(x: bv32)
    requires x & 0xFFFFF800 == 0
    ensures Widen(Asr(x << 20, 20)) == x as bv64
  {
  }

  lemma ExtendNegative12(x: bv32)
    requires x & 0xFFFFF800 == 0x00000800
    ensures Widen(Asr(x << 20, 20)) == (x | 0xFFFFF000) as bv64 | 0xFFFF_FFFF_0000_0000
  {
  }

  lemma Signed12(offset: bv64, x: bv32)
    requires Fits(offset, 0xFFFFFFFFFFFFF800) && x == Low32(offset) & 0x00000FFF
    ensures Widen(Asr(x << 20, 20)) == offset
  {
    if offset & 0xFFFFFFFFFFFFF800 == 0 {
      NonNegative12(offset, x);
      ExtendNonNegative12(x);
      NonNegativeValue12(offset, x);
    } else {
      Negative12(offset, x);
      ExtendNegative12(x);
      NegativeValue12(offset, x);
    }
  }
}

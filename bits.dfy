/**
 * Integer widths used by the backend: LLVM's isInt<N> tests on mathematical
 * integers, and the C++ fixed-width values of the MC layer as bit-vectors
 * (an int64_t is kept as its 64-bit two's-complement pattern, an unsigned
 * as a bv32).
 */
module Bits {

  /** LLVM's isInt<N>(x) for the widths the backend tests: x is an N-bit signed integer. */
  predicate IsInt10(x: int) { -0x200 <= x < 0x200 }
  predicate IsInt16(x: int) { -0x8000 <= x < 0x8000 }
  predicate IsInt21(x: int) { -0x10_0000 <= x < 0x10_0000 }

  /** The narrower widths are contained in the wider ones. */
  lemma IsIntWidens(x: int)
    ensures IsInt10(x) ==> IsInt16(x)
    ensures IsInt16(x) ==> IsInt21(x)
  {
  }

  /**
   * isInt<16> and isInt<10> on the bit pattern of an int64_t: the value is
   * non-negative and below 2^(N-1), or negative and at least -2^(N-1).
   */
  predicate FitsInt16(x: bv64) { x < 0x8000 || 0xffff_ffff_ffff_8000 <= x }
  predicate FitsInt10(x: bv64) { x < 0x200 || 0xffff_ffff_ffff_fe00 <= x }

  /** A negative int64_t (sign bit set). */
  predicate IsNegative(x: bv64) { x >= 0x8000_0000_0000_0000 }

  /** static_cast<unsigned>(x) of an int64_t: its low 32 bits. */
  function Low32(x: bv64): (r: bv32)
    ensures r as bv64 == x & 0xffff_ffff
  {
    (x & 0xffff_ffff) as bv32
  }

  /** Sign-extends the low 16 bits of a 64-bit pattern. */
  function SignExtend16(g: bv64): bv64
  {
    if g & 0x8000 != 0 then (g & 0xffff) | 0xffff_ffff_ffff_0000 else g & 0xffff
  }

  /** Sign-extends the low 10 bits of a 64-bit pattern. */
  function SignExtend10(g: bv64): bv64
  {
    if g & 0x200 != 0 then (g & 0x3ff) | 0xffff_ffff_ffff_fc00 else g & 0x3ff
  }

  /** Whatever the field holds, its sign extension fits 16 signed bits. */
  lemma SignExtend16Fits(g: bv64)
    ensures FitsInt16(SignExtend16(g))
  {
  }

  /** A value that fits 16 signed bits is determined by its low 16 bits. */
  lemma SignExtend16Inverse(x: bv64)
    requires FitsInt16(x)
    ensures SignExtend16(x & 0xffff) == x
  {
    if x < 0x8000 {
      assert x & 0xffff == x;
      assert x & 0x8000 == 0;
    } else {
      assert x & 0x8000 != 0;
      assert (x & 0xffff) | 0xffff_ffff_ffff_0000 == x;
    }
  }

  /** A value that fits 10 signed bits is determined by its low 10 bits. */
  lemma SignExtend10Inverse(x: bv64)
    requires FitsInt10(x)
    ensures SignExtend10(x & 0x3ff) == x
  {
    if x < 0x200 {
      assert x & 0x3ff == x;
      assert x & 0x200 == 0;
    } else {
      assert x & 0x200 != 0;
      assert (x & 0x3ff) | 0xffff_ffff_ffff_fc00 == x;
    }
  }
}

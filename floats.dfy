/**
 * The float fields of a packet ('<f') kept as raw binary32 words. No IEEE-754
 * arithmetic is modelled; only what the listener's control flow depends on:
 * Python truthiness, `==`/`!=`, and whether a value is finite (a one-argument
 * `round` of NaN or of an infinity raises). All are decided by the bits.
 */
module Floats {

  type Word32 = x: int | 0 <= x < 0x1_0000_0000

  /** An IEEE-754 binary32 value, as its bit pattern. */
  datatype Float32 = Float32(bits: Word32)

  /** +0.0 or -0.0: the floats that Python treats as false. */
  predicate IsZero(x: Float32) {
    x.bits % 0x8000_0000 == 0
  }

  /** Not all exponent bits set: neither an infinity nor a NaN. */
  predicate IsFinite(x: Float32) {
    (x.bits / 0x80_0000) % 0x100 != 0xFF
  }

  /** All exponent bits set and a zero fraction. */
  predicate IsInf(x: Float32) {
    !IsFinite(x) && x.bits % 0x80_0000 == 0
  }

  /** All exponent bits set and a nonzero fraction. */
  predicate IsNaN(x: Float32) {
    (x.bits / 0x80_0000) % 0x100 == 0xFF && x.bits % 0x80_0000 != 0
  }

  /** Python's `a == b` on the two values: NaN equals nothing, and +0.0 == -0.0. */
  predicate Equal(a: Float32, b: Float32) {
    !IsNaN(a) && !IsNaN(b) && (a == b || (IsZero(a) && IsZero(b)))
  }

  /** Against a nonzero value, float equality is equality of bit patterns (NaN aside). */
  lemma EqualNonzero(a: Float32, b: Float32)
    requires !IsZero(b)
    ensures Equal(a, b) <==> a == b && !IsNaN(b)
  {
    if a == b {
      assert !IsZero(a);
    }
  }

  /** Every word is exactly one of: finite, infinite, NaN. */
  lemma Classification(x: Float32)
    ensures IsFinite(x) <==> !IsInf(x) && !IsNaN(x)
    ensures !(IsInf(x) && IsNaN(x))
  {
  }

  /** Off NaN, `==` is an equivalence relation. */
  lemma EqualEquivalence(a: Float32, b: Float32, c: Float32)
    ensures Equal(a, a) <==> !IsNaN(a)
    ensures Equal(a, b) ==> Equal(b, a)
    ensures Equal(a, b) && Equal(b, c) ==> Equal(a, c)
  {
  }
}

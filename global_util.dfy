// Model of the one piece of local logic in GlobalUtil.h: rounding a byte size
// up to the 256-byte alignment that constant buffers need.

module GlobalUtil {

  /** 2^32: one past the largest value of a 32-bit unsigned integer (UINT). */
  const Pow32: int := 0x1_0000_0000

  /** The largest input whose rounding does not wrap: 2^32 - 256. */
  const MaxUnwrapped: int := 0xFFFF_FF00

  /** A value of the 32-bit unsigned type UINT. */
  type Uint32 = x: int | 0 <= x < 0x1_0000_0000

  predicate IsMultipleOf256(x: int) {
    x % 256 == 0
  }

  /**
   * CalcConstantBufferByteSize: `(byteSize + 255) & ~255` on UINT.
   * The addition is taken modulo 2^32, and clearing the low eight bits of a
   * non-negative value is subtracting its remainder modulo 256. The result
   * is always 256-aligned; without wrap-around it is the nearest multiple of
   * 256 at or above the input, and for inputs above 2^32 - 256 the sum wraps
   * to a value below 255 and the result is 0.
   */
  function CalcConstantBufferByteSize(byteSize: Uint32): (r: Uint32)
    ensures IsMultipleOf256(r)
    ensures byteSize <= MaxUnwrapped ==> byteSize <= r < byteSize + 256
    ensures byteSize > MaxUnwrapped ==> r == 0
  {
    var sum := (byteSize + 255) % Pow32;
    sum - sum % 256
  }

  /** Rounding yields the least 256-aligned value that is not below the input. */
  lemma RoundsToLeastMultiple(n: Uint32, m: int)
    requires n <= MaxUnwrapped
    requires IsMultipleOf256(m) && n <= m
    ensures CalcConstantBufferByteSize(n) <= m
  {
  }

  /** Sizes that are already 256-aligned, 0 included, are returned unchanged. */
  lemma AlignedUnchanged(n: Uint32)
    requires IsMultipleOf256(n)
    ensures CalcConstantBufferByteSize(n) == n
  {
  }

  /** Rounding an already rounded size changes nothing. */
  lemma RoundingIdempotent(n: Uint32)
    ensures CalcConstantBufferByteSize(CalcConstantBufferByteSize(n)) == CalcConstantBufferByteSize(n)
  {
    AlignedUnchanged(CalcConstantBufferByteSize(n));
  }

  /** Worked examples: 0, 4, 256, 257 and an input that wraps. */
  lemma RoundingExamples()
    ensures CalcConstantBufferByteSize(0) == 0
    ensures CalcConstantBufferByteSize(4) == 256
    ensures CalcConstantBufferByteSize(256) == 256
    ensures CalcConstantBufferByteSize(257) == 512
    ensures CalcConstantBufferByteSize(0xFFFF_FFFF) == 0
  {
  }
}

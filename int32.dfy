/** The C# `int` type: 32-bit two's complement, arithmetic unchecked (it wraps). */
module Int32 {

  const MinInt32: int := -0x8000_0000
  const MaxInt32: int := 0x7FFF_FFFF
  const Modulus: int := 0x1_0000_0000

  predicate IsInt32(x: int) {
    MinInt32 <= x <= MaxInt32
  }

  /** The value an unchecked C# `int` holds after an arithmetic result `x`:
      the unique 32-bit value congruent to `x` modulo 2^32. */
  function Wrap(x: int): (r: int)
    ensures IsInt32(r)
    ensures (r - x) % Modulus == 0
    ensures IsInt32(x) ==> r == x
  {
    (x - MinInt32) % Modulus + MinInt32
  }
}

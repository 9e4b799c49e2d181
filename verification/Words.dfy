/** Bytes, and JavaScript's 32-bit bit operators as integer arithmetic.

    A left shift multiplies, a right shift divides rounding down, masking with low ones is a
    remainder, and OR adds when its operands share no bit, which `Or` demands.
 */
module Words {
  type Byte = n: nat | n < 0x100

  type Bytes = seq<Byte>

  const TWO_TO_THE_32 := 0x1_0000_0000

  /** The signed 32-bit number congruent to x: what every bit operator but >>> yields. */
  function ToInt32(x: int): (y: int)
    ensures -0x8000_0000 <= y < 0x8000_0000
    ensures (y - x) % TWO_TO_THE_32 == 0
  {
    var m := x % TWO_TO_THE_32;
    if m < 0x8000_0000 then m else m - TWO_TO_THE_32
  }

  /** The unsigned 32-bit number congruent to x: what >>> 0 yields. */
  function ToUint32(x: int): nat { x % TWO_TO_THE_32 }

  /** `high | low` where `unit` is a power of two that divides `high` and exceeds `low`. */
  function Or(high: int, low: nat, unit: nat): int
    requires unit > 0 && high % unit == 0 && low < unit
  {
    high + low
  }
}

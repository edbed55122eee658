// Shared vocabulary: optional values, octets, and the 32-bit view JavaScript's
// bitwise operators take of a number.
module Prelude {

  datatype Option<+T> = None | Some(value: T) {
    predicate IsFailure() { None? }

    function PropagateFailure<U>(): Option<U>
      requires None?
    {
      None
    }

    function Extract(): T
      requires Some?
    {
      value
    }
  }

  type octet = x: int | 0 <= x < 256
  type octets = seq<octet>

  const TWO_31 := 0x8000_0000
  const TWO_32 := 0x1_0000_0000

  /** The signed 32-bit integer JavaScript converts `x` to before `&`, `|` or `>>`. */
  function ToInt32(x: int): int {
    (x + TWO_31) % TWO_32 - TWO_31
  }
}

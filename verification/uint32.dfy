/**
 The `std::uint32_t` arithmetic the engine uses for cursors, frame counts and
 sample-vector lengths. Dafny integers are unbounded, so every place where the
 source assigns a wider or possibly-overflowing value to a 32-bit unsigned
 variable goes through `Wrap`.
 */
module Uint32 {

  const LIMIT: int := 0x1_0000_0000

  /** The values a `std::uint32_t` can hold. */
  type U32 = x: int | 0 <= x < LIMIT

  /** The value a `std::uint32_t` holds after `x` is assigned to it (reduction modulo 2^32). */
  function Wrap(x: int): (r: U32)
    ensures 0 <= x < LIMIT ==> r == x
    ensures LIMIT <= x < 2 * LIMIT ==> r == x - LIMIT
    ensures -LIMIT <= x < 0 ==> r == x + LIMIT
  {
    x % LIMIT
  }
}

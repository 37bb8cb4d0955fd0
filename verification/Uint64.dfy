/** Unsigned 64-bit arithmetic, which wraps around. */
module Uint64 {
  const TWO_64 := 0x1_0000_0000_0000_0000

  function Add64(a: int, b: int): int {
    (a + b) % TWO_64
  }

  function Sub64(a: int, b: int): int {
    (a - b) % TWO_64
  }
}

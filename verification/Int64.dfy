/** Go's int64: two's-complement addition and subtraction that wrap around silently. */
module Int64 {

  const MAX64: int := 0x7FFF_FFFF_FFFF_FFFF
  const MIN64: int := -0x8000_0000_0000_0000
  const TWO64: int := 0x1_0000_0000_0000_0000

  predicate Is64(x: int) {
    MIN64 <= x <= MAX64
  }

  /** The int64 that differs from `x` by at most one multiple of 2^64. */
  function Wrap(x: int): int {
    if x > MAX64 then x - TWO64 else if x < MIN64 then x + TWO64 else x
  }

  function Add64(x: int, y: int): int {
    Wrap(x + y)
  }

  function Sub64(x: int, y: int): int {
    Wrap(x - y)
  }
}

/** Fixed-width integer ranges of the Go source, written out explicitly. */
module Ints {

  const Uint32Limit: nat := 0x1_0000_0000

  /** Go `uint32`, used for socket ports. */
  type Uint32 = n: nat | n < Uint32Limit

  const MinInt64: int := -0x8000_0000_0000_0000
  const MaxInt64: int := 0x7FFF_FFFF_FFFF_FFFF

  predicate IsInt64(n: int) {
    MinInt64 <= n <= MaxInt64
  }
}

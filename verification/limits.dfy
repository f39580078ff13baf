// The ranges of C's int and of a long of 64 bits.

module Limits {

  const INT_MAX: int := 0x7FFF_FFFF
  const LONG_MAX: int := 0x7FFF_FFFF_FFFF_FFFF
  const LONG_MIN: int := -LONG_MAX - 1
}

/** Bytes and the ranges of machine words. */
module Bytes {
  type Byte = b: int | 0 <= b < 256

  const U32 := 0x1_0000_0000
  const U64 := 0x1_0000_0000_0000_0000

  const LLONG_MAX := 0x7FFF_FFFF_FFFF_FFFF

  function Pow256(n: nat): nat {
    if n == 0 then 1 else 256 * Pow256(n - 1)
  }
}

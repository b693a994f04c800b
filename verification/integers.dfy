/** Integers as Go computes with them: unsigned addition and subtraction wrap
    around, nothing traps. */
module Integers {

  const U32_SIZE: int := 0x1_0000_0000
  const U64_SIZE: int := 0x1_0000_0000_0000_0000

  /** The largest length of a Go slice: `len` is a signed 64-bit integer. */
  const MAX_LEN: int := 0x7FFF_FFFF_FFFF_FFFF

  type u32 = x: int | 0 <= x < 0x1_0000_0000
  type u64 = x: int | 0 <= x < 0x1_0000_0000_0000_0000
  type int64 = x: int | -0x8000_0000_0000_0000 <= x < 0x8000_0000_0000_0000

  function Add(a: u64, b: u64): u64 {
    if a + b < U64_SIZE then a + b else a + b - U64_SIZE
  }

  function Sub(a: u64, b: u64): u64 {
    if b <= a then a - b else a - b + U64_SIZE
  }

  /** Reading a Go map of counters: an absent key reads as zero. */
  function Lookup(m: map<string, u64>, k: string): u64 {
    if k in m then m[k] else 0
  }
}

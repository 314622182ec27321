/** Fixed-width integers of the program, with the operators it uses on them.
    Casts and negations wrap modulo 2^128, as in a release build. */
module RustInts {

  const U64_MAX: nat := 0xFFFF_FFFF_FFFF_FFFF
  const USIZE_MAX: nat := U64_MAX
  const TWO_127: int := 0x8000_0000_0000_0000_0000_0000_0000_0000
  const TWO_128: int := 0x1_0000_0000_0000_0000_0000_0000_0000_0000
  const U128_MAX: int := TWO_128 - 1
  const TWO_160: int := 0x1_0000_0000_0000_0000_0000_0000_0000_0000_0000_0000
  const TWO_255: int := 0x8000_0000_0000_0000_0000_0000_0000_0000_0000_0000_0000_0000_0000_0000_0000_0000
  const TWO_256: int := 0x1_0000_0000_0000_0000_0000_0000_0000_0000_0000_0000_0000_0000_0000_0000_0000_0000
  const U256_MAX: int := TWO_256 - 1

  type u64 = x: int | 0 <= x <= U64_MAX
  type usize = x: int | 0 <= x <= USIZE_MAX
  type u128 = x: int | 0 <= x < TWO_128
  type i128 = x: int | -TWO_127 <= x < TWO_127
  type u256 = x: int | 0 <= x < TWO_256

  /** A 20-byte account or pool address, read as a big-endian number. */
  type Address = x: int | 0 <= x < TWO_160

  const ZERO_ADDRESS: Address := 0

  function Min(a: int, b: int): int {
    if a <= b then a else b
  }

  function Max(a: int, b: int): int {
    if a >= b then a else b
  }

  /** Two's-complement reduction of a sum or difference of two i128 values. */
  function WrapI128(x: int): (r: i128)
    requires -TWO_128 <= x < TWO_128
    ensures r == x <==> -TWO_127 <= x < TWO_127
  {
    if x >= TWO_127 then x - TWO_128
    else if x < -TWO_127 then x + TWO_128
    else x
  }

  /** `x as i128` */
  function AsI128(x: u128): (r: i128)
    ensures r == x <==> x < TWO_127
  {
    if x < TWO_127 then x else x - TWO_128
  }

  /** `x as u128` */
  function AsU128(x: i128): u128 {
    if x >= 0 then x else x + TWO_128
  }

  /** `-x` on i128; the minimum negates to itself. */
  function NegI128(x: i128): i128 {
    WrapI128(-(x as int))
  }

  function SatAddU128(a: u128, b: u128): u128 {
    Min(a + b, U128_MAX)
  }

  function SatSubU128(a: u128, b: u128): u128 {
    Max(a - b, 0)
  }

  /** `u128::saturating_add_signed` */
  function SatAddSigned(a: u128, d: i128): u128 {
    Max(0, Min(a + d, U128_MAX))
  }

  function SatAddU256(a: u256, b: u256): u256 {
    Min(a + b, U256_MAX)
  }

  function SatSubU256(a: u256, b: u256): u256 {
    Max(a - b, 0)
  }

  /** A signed 256-bit value read from its raw bits, and a difference of two of
      them, wrapping. */
  type i256 = x: int | -TWO_255 <= x < TWO_255

  function I256FromRaw(x: u256): i256 {
    if x < TWO_255 then x else x - TWO_256
  }

  function WrapI256(x: int): i256
    requires -TWO_256 <= x < TWO_256
  {
    if x >= TWO_255 then x - TWO_256
    else if x < -TWO_255 then x + TWO_256
    else x
  }

  /** `(-x).into_raw()` */
  function I256NegRaw(x: i256): u256 {
    var n := WrapI256(-(x as int));
    if n >= 0 then n else n + TWO_256
  }

  function SatMulUsize(a: usize, b: usize): usize {
    Min(a * b, USIZE_MAX)
  }

  function SatAddU64(a: u64, b: u64): u64 {
    Min(a + b, U64_MAX)
  }

  function SatSubU64(a: u64, b: u64): u64 {
    Max(a - b, 0)
  }
}

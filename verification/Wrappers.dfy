/** Optional values, results that can fail, and the source's machine integers. */
module Wrappers {

  datatype Option<+T> = None | Some(value: T) {
    function GetOr(default: T): T { if Some? then value else default }
  }

  datatype Result<+R, +E> = Ok(value: R) | Err(error: E)

  /** Counts a condition as one or nothing. */
  function One(b: bool): nat { if b then 1 else 0 }

  /** Subtraction that stops at zero. */
  function SaturatingSub(a: nat, b: nat): (difference: nat)
    ensures difference <= a
  {
    if a < b then 0 else a - b
  }

  const U32_MAX: int := 0xFFFF_FFFF
  const U64_MAX: int := 0xFFFF_FFFF_FFFF_FFFF
  const I64_MAX: int := 0x7FFF_FFFF_FFFF_FFFF
  const I32_MAX: int := 0x7FFF_FFFF
  const I32_MIN: int := -0x8000_0000

  type U8 = x: int | 0 <= x <= 0xFF
  type U16 = x: int | 0 <= x <= 0xFFFF
  type U32 = x: int | 0 <= x <= U32_MAX
  type U64 = x: int | 0 <= x <= U64_MAX
  type I32 = x: int | I32_MIN <= x <= I32_MAX
}

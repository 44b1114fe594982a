/** Types shared by every model: optional values, results and the machine integers
    whose limits the source checks. */
module Common {

  datatype Option<+T> = None | Some(value: T)

  datatype Result<+T, +E> = Ok(value: T) | Err(error: E)

  function Larger(a: Option<int>, b: int): int { if a.Some? && a.value > b then a.value else b }
  function Smaller(a: Option<int>, b: int): int { if a.Some? && a.value < b then a.value else b }

  /** A counter of a map, zero when there is none. */
  function Get(m: map<int, int>, k: int): int { if k in m then m[k] else 0 }

  const I64_MIN: int := -0x8000_0000_0000_0000
  const I64_MAX: int := 0x7FFF_FFFF_FFFF_FFFF
  const I128_MIN: int := -0x8000_0000_0000_0000_0000_0000_0000_0000
  const I128_MAX: int := 0x7FFF_FFFF_FFFF_FFFF_FFFF_FFFF_FFFF_FFFF
  const U128_MAX: int := 0xFFFF_FFFF_FFFF_FFFF_FFFF_FFFF_FFFF_FFFF
  const U64_MAX: int := 0xFFFF_FFFF_FFFF_FFFF

  type i64 = x: int | I64_MIN <= x <= I64_MAX
  type i128 = x: int | I128_MIN <= x <= I128_MAX
  type u8 = x: int | 0 <= x <= 255
}

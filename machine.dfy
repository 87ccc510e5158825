/** Fixed-width unsigned integers of the Rust source and the Option type its
    standard library supplies (`Option`, `unwrap_or`, `unwrap_or_default`). */
module Machine {

  const U64_LIMIT: int := 0x1_0000_0000_0000_0000
  const U128_LIMIT: int := 0x1_0000_0000_0000_0000_0000_0000_0000_0000

  /** `u64::MAX` */
  const U64_MAX: int := U64_LIMIT - 1

  /** `usize` on a 64-bit target. */
  newtype usize = x: int | 0 <= x < U64_LIMIT
  newtype u64 = x: int | 0 <= x < U64_LIMIT
  newtype u128 = x: int | 0 <= x < U128_LIMIT

  datatype Option<T> = None | Some(value: T) {
    /** `Option::unwrap_or` (and `unwrap_or_default` with the type's default). */
    function GetOr(default: T): T
    {
      match this
      case Some(v) => v
      case None => default
    }
  }
}

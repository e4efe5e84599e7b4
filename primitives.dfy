/** Shared value types: the Rust `u64`, `Option` and `Result`. */
module Primitives {

  /** Largest value of a Rust `u64`. */
  const U64_MAX: int := 0xFFFF_FFFF_FFFF_FFFF

  /** A Rust `u64`: sequence numbers, amounts, block indices and clock readings. */
  type U64 = x: int | 0 <= x <= U64_MAX

  datatype Option<T> = None | Some(value: T)

  /** Rust's `Result`: the updates return `Ok(value)` or `Err(error)`. */
  datatype Result<T, E> = Ok(value: T) | Err(error: E)
}

/** Types shared by every module of the model. */
module Common {
  const U64_MAX: int := 0xFFFF_FFFF_FFFF_FFFF

  /** Rust's `u64`; every increment in the source is a checked one. */
  type U64 = n: int | 0 <= n <= U64_MAX

  type Byte = n: int | 0 <= n < 256
  type Bytes = seq<Byte>

  datatype Option<+T> = None | Some(value: T)

  datatype Result<+T, +E> = Ok(value: T) | Err(error: E)
}

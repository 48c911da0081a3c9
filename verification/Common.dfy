/** Shared result types. */
module Common {

  datatype Option<+T> = None | Some(value: T)

  datatype Result<+T, +E> = Ok(value: T) | Err(error: E)

  /** The largest value of Go's int64 plus one. */
  const INT64_LIMIT: int := 0x8000_0000_0000_0000
}

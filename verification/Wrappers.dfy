/** Optional values, results and the range of int64, shared by the other modules. */
module Wrappers {
  datatype Option<+T> = None | Some(value: T)

  datatype Result<+T, +E> = Ok(value: T) | Err(error: E)

  // int64 of Go and BIGINT of Postgres.
  const MAX_INT64 := 0x7FFF_FFFF_FFFF_FFFF
}

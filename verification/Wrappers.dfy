/** Optional values and the outcome of an operation that may fail. */
module Wrappers {

  datatype Option<+T> = None | Some(value: T)

  /** A Go function's `(value, error)` pair: a value, or the error it returned. */
  datatype Result<+T, +E> = Ok(value: T) | Err(error: E)
}

/** Failure-carrying results used by the curve analysis. */
module Wrappers {

  /** A value that may be absent: a landmark search that found no index. */
  datatype Option<T> = None | Some(value: T)

  /** A computation that either succeeds with a value or fails with an error. */
  datatype Result<T, E> = Ok(value: T) | Err(error: E)
}

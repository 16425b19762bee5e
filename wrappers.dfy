/** Failure-carrying values, standing for Go's `(value, error)` returns. */
module Wrappers {

  /** A value that may be absent, as a Go pointer or `error` that may be nil. */
  datatype Option<+T> = None | Some(value: T)

  /** Either a successful answer or the error it failed with. */
  datatype Result<+T, +E> = Ok(value: T) | Err(error: E)
}

/** Failure-carrying values used in place of Go's `(value, error)` returns. */
module Wrappers {

  datatype Option<+T> = None | Some(value: T)

  /** The result of an operation that only reports success or an error. */
  datatype Outcome<+E> = Pass | Fail(error: E)

  /** The result of an operation that returns a value or an error. */
  datatype Result<+T, +E> = Ok(value: T) | Err(error: E)
}

/** Failure-compatible value types used across the model. */
module Wrappers {

  /** A value that may be missing (a Java null). */
  datatype Option<+T> = None | Some(value: T)

  /** The value of an operation, or the exception it throws instead. */
  datatype Result<+T, +E> = Ok(value: T) | Err(error: E)

  /** A check that either passes or throws. */
  datatype Outcome<+E> = Pass | Fail(error: E)
}

/** Failure-compatible wrappers used throughout the model. */
module Wrappers {

  /** Python's `Optional[T]`: a value or `None`. */
  datatype Option<+T> = None | Some(value: T)

  /** The outcome of an operation that may raise: a value, or the exception it raised. */
  datatype Result<+T, +E> = Ok(value: T) | Err(error: E)
}

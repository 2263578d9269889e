/** Failure-compatible result types used across the model. */
module Wrappers {

  /** A value that may be missing: what a conversion returns when it can fail. */
  datatype Option<+T> = None | Some(value: T)

  /** The outcome of an operation that either produces a value or raises an error. */
  datatype Result<+R, +E> = Success(value: R) | Failure(error: E)
}

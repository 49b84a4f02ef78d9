/** Failure-compatible wrappers for absent values and error returns. */
module Wrappers {

  /** A present/absent value: stands for a Go pointer that may be nil. */
  datatype Option<+T> = None | Some(value: T)

  /** Go's `(value, error)` pair: exactly one of the two is meaningful. */
  datatype Result<+R, +E> = Success(value: R) | Failure(error: E)
}

/** Failure-carrying results: Go's `(value, error)` returns and its nil-able pointers. */
module Wrappers {
  datatype Option<+T> = None | Some(value: T)

  datatype Result<+T, +E> = Success(value: T) | Failure(error: E)
}

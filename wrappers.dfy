/** Failure-carrying values shared by the other modules. */
module Wrappers {

  /** A value that may be absent (a nil pointer or a missing optional result). */
  datatype Option<+T> = None | Some(value: T)

  /** A value or the error that replaced it (Go's `(value, err)` pair). */
  datatype Result<+R, +E> = Success(value: R) | Failure(error: E)
}

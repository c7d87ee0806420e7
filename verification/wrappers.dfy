/** Failure-carrying values shared by every module of the booking model. */
module Wrappers {

  /** A value that may be absent; Go's `nil` pointer results become `None`. */
  datatype Option<+T> = None | Some(value: T)

  /** A Go `(value, error)` pair: exactly one of the two is meaningful. */
  datatype Result<+T, +E> = Ok(value: T) | Err(error: E)
}

/** Option and Result values, used for Go's nil-able pointers and for panics. */
module Wrappers {

  datatype Option<+T> = None | Some(value: T)

  /** Success carries the value a Go function returns; Failure carries the message it panics with. */
  datatype Result<+R, +E> = Success(value: R) | Failure(error: E)
}

/** Option and Result, the two failure-carrying shapes used across the model. */
module Wrappers {

  /** A value that may be absent (JavaScript `null`, a missing map entry). */
  datatype Option<+T> = None | Some(value: T)

  /** Either a value or the error that a call raised instead. */
  datatype Result<+T, +E> = Success(value: T) | Failure(error: E)
}

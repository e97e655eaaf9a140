/** Option and Result wrappers shared by every module of the model. */
module Wrappers {

  /** A value that may be absent (JavaScript `undefined`). */
  datatype Option<+T> = None | Some(value: T)

  /** The outcome of an operation that reports errors as values. */
  datatype Result<+T, +E> = Success(value: T) | Failure(error: E)
}

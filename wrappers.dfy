/** Absent values and error returns, shared by every part of the model. */
module Wrappers {

  /** A value that may be missing: a NULL pointer in the C code. */
  datatype Option<+T> = None | Some(value: T)

  /** The outcome of an operation that can raise an exception. */
  datatype Result<+R, +E> = Success(value: R) | Failure(error: E)
}

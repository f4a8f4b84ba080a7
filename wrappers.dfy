/** Option and Result wrappers used across the model. */
module Wrappers {

  /** A value that may be absent: Python's `None`, or pandas' NaN / NaT. */
  datatype Option<+T> = None | Some(value: T)

  /** The outcome of an operation that may raise. */
  datatype Result<+R, +E> = Success(value: R) | Failure(error: E)
}

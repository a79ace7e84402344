/** Option and Result, the two failure-aware shapes the extractor's answers take. */
module Wrappers {

  /** A value that may be absent (Python's `None`). */
  datatype Option<+T> = None | Some(value: T)

  /** The outcome of an operation that may raise: its value, or the exception raised. */
  datatype Result<+T, +E> = Success(value: T) | Failure(error: E)
}

/** Option and Result, the two failure-compatible wrappers the model uses for Ruby's `nil` and `raise`. */
module Wrappers {

  /** A value that may be absent: Ruby's `nil` versus an object. */
  datatype Option<+T> = None | Some(value: T)

  /** The outcome of an operation that may raise. */
  datatype Result<+T, +E> = Success(value: T) | Failure(error: E)
}

/** Option and Result, the two failure-carrying shapes the model needs. */
module Wrappers {

  /** A Python value that may be `None`. */
  datatype Option<+T> = None | Some(value: T)

  /** The outcome of a call that either returns or raises. */
  datatype Result<+T, +E> = Success(value: T) | Failure(error: E)
}

/** Option and Result, the two shapes every fallible operation of the model returns. */
module Wrappers {

  datatype Option<+T> = None | Some(value: T)

  /** A Success carries the value an operation produced; a Failure carries what it threw. */
  datatype Result<+R, +E> = Success(value: R) | Failure(error: E)
}

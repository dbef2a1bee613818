/** Option and Result, used across the model. */
module Wrappers {

  /** A value that may be absent, e.g. a limit whose `parseInt` gave NaN. */
  datatype Option<+T> = None | Some(value: T)

  /** The outcome of an operation that can fail with an error value. */
  datatype Result<+R, +E> = Success(value: R) | Failure(error: E)
}

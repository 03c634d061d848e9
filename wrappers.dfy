/** Option and Result, used for values the script treats as possibly absent or failed. */
module Wrappers {

  datatype Option<+T> = None | Some(value: T)

  /** The outcome of an operation that can fail with a message. */
  datatype Result<+R, +E> = Success(value: R) | Failure(error: E)
}

/** Option and Result, for the JavaScript values that may be null or undefined
    and for the calls that may throw. */
module Wrappers {
  datatype Option<+T> = None | Some(value: T)

  datatype Result<+T, +E> = Success(value: T) | Failure(error: E)
}

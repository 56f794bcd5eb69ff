/** Optional values and results used throughout the model. */
module Wrappers {

  /** An optional value; `None` plays the part of JavaScript's `undefined`. */
  datatype Option<+T> = None | Some(value: T)

  /** Either a value or the error that was thrown instead of producing it. */
  datatype Result<+R, +E> = Success(value: R) | Failure(error: E)
}

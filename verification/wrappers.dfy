/** Optional values, and results that carry either a value or an error. */
module Wrappers {

  /** A value that may be absent; models JavaScript's `undefined`. */
  datatype Option<+T> = None | Some(value: T)

  /** Either a value or the error that a JavaScript expression would throw. */
  datatype Result<+T, +E> = Success(value: T) | Failure(error: E)
}

/** Optional values and results, shared by the tracker models. */
module Wrappers {

  /** An optional value; `None` plays the part of JavaScript's `undefined`. */
  datatype Option<+T> = None | Some(value: T)

  /** A value, or the error that aborted the computation that should have produced it. */
  datatype Result<+T, +E> = Success(value: T) | Failure(error: E)
}

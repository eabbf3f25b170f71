/** Optional values and results, used throughout the model. */
module Wrappers {

  /** An optional value. */
  datatype Option<+T> = None | Some(value: T)

  /** Either a value or the error that aborted the computation. */
  datatype Result<+R, +E> = Success(value: R) | Failure(error: E)
}

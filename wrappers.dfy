/** Optional values and results that may carry an error, standing in for
    Python's `None` and for an exception raised to the caller. */
module Wrappers {

  datatype Option<+T> = None | Some(value: T)

  datatype Result<+R, +E> = Success(value: R) | Failure(error: E)
}

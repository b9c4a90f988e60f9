/** Optional values and results with an error, used for Python's `None`
    and for exceptions, caught or not. */
module Wrappers {

  datatype Option<+T> = None | Some(value: T)

  datatype Result<+R, +E> = Success(value: R) | Failure(error: E)
}

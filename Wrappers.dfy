/** Optional values, standing for Python's `None`, and outcomes that are
    either a value or the error a handler raised. */
module Wrappers {

  datatype Option<+T> = None | Some(value: T)

  datatype Result<+T, +E> = Success(value: T) | Failure(error: E)
}

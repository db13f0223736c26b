/** Optional values (Python's `None`) and error-or-value results (a raised exception). */
module Wrappers {

  datatype Option<+T> = None | Some(value: T)

  datatype Result<+T, +E> = Success(value: T) | Failure(error: E)
}

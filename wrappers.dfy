/** Optional values and error-carrying results, for Python's `None` and raised exceptions. */
module Wrappers {

  datatype Option<+T> = None | Some(value: T)

  datatype Result<+R, +E> = Success(value: R) | Failure(error: E)

  /** Outcome of an operation that returns nothing in the source but may raise. */
  datatype Outcome<+E> = Pass | Fail(error: E)
}

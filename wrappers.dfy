/** Optional values and success-or-error results, used wherever the Go code
    returns a nil-able pointer or an `(value, error)` pair. */
module Wrappers {

  datatype Option<+T> = None | Some(value: T)

  datatype Result<+T, +E> = Success(value: T) | Failure(error: E)

  /** The outcome of an operation that returns only an `error`. */
  datatype Outcome<+E> = Pass | Fail(error: E)
}

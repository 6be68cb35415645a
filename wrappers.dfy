/** Optional values and error returns shared by the other modules. */
module Wrappers {

  /** A value that may be absent: a missing JSON field, or `null` before a `join`. */
  datatype Option<+T> = None | Some(value: T)

  /** The outcome of a check that either produces a value or a human-readable error. */
  datatype Result<+T> = Success(value: T) | Failure(error: string)
}

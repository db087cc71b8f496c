/** Optional values and results with an error, as the Swift code uses `Optional`
    and `throws`. */
module Wrappers {

  datatype Option<+T> = None | Some(value: T)

  /** The outcome of an operation that can throw: a value or the thrown error. */
  datatype Result<+T, +E> = Success(value: T) | Failure(error: E)
}

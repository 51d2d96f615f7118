/** Optional values and results, used wherever the modelled code returns null
    or throws instead of returning a value. */
module Wrappers {

  /** A value that may be absent: Java's nullable reference, Python's None. */
  datatype Option<+T> = None | Some(value: T)

  /** The outcome of an operation that either yields a value or fails with an error. */
  datatype Result<+T, +E> = Success(value: T) | Failure(error: E)
}

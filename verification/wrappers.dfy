/** Optional values and results with an error, the two ways the modelled code
    reports "nothing" (Python's None) and "raised" (a Python exception). */
module Wrappers {

  /** Python's `Optional[T]`: None or a value. */
  datatype Option<+T> = None | Some(value: T)

  /** The outcome of a call that either returns a value or raises an exception
      whose message is kept as the error. */
  datatype Result<+R, +E> = Success(value: R) | Failure(error: E)
}

/** Optional values and success/failure results, used for JavaScript's
    null/undefined and for rejected promises. */
module Wrappers {

  datatype Option<+T> = None | Some(value: T)

  datatype Result<+R, +E> = Success(value: R) | Failure(error: E)

  /** A unit value for operations whose success carries nothing. */
  datatype Unit = Unit
}

/** Optional values and results with an error, as returned by the registry. */
module Wrappers {

  /** A value that may be absent (JavaScript's `undefined`). */
  datatype Option<+T> = None | Some(value: T)

  /** Either a value or an error message (`{ user }` or `{ error }`). */
  datatype Result<+T, +E> = Success(value: T) | Failure(error: E)
}

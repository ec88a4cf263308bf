/** Optional values and success-or-error results, used for JavaScript's
    `undefined` and for the exceptions the server throws. */
module Wrappers {

  datatype Option<+T> = None | Some(value: T)

  datatype Result<+R, +E> = Success(value: R) | Failure(error: E)
}

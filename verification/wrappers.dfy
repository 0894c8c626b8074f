/** Optional values and results with an error, used for JavaScript's `undefined`
    and for the failures a request can end in. */
module Wrappers {

  datatype Option<+T> = None | Some(value: T)

  datatype Result<+R, +E> = Success(value: R) | Failure(error: E)
}

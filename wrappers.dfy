/** Optional values and results, the Dafny stand-ins for `undefined`/`null` and for a request that can fail. */
module Wrappers {

  datatype Option<+T> = None | Some(value: T)

  datatype Result<+R, +E> = Success(value: R) | Failure(error: E)
}

/** Optional values and success/failure results, used for JavaScript's
    `null`/`undefined` and for the `{ moves }` / `{ error }` result objects. */
module Wrappers {

  datatype Option<+T> = None | Some(value: T)

  datatype Result<+R, +E> = Success(value: R) | Failure(error: E)
}

/** Optional values and results with an error, used for the source's
    `null`/`undefined` returns and its thrown errors. */
module Wrappers {

  datatype Option<+T> = None | Some(value: T)

  datatype Result<+T, +E> = Success(value: T) | Failure(error: E)
}

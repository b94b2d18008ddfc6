/** Optional values and results with an error channel, used in place of the
    exceptions the updater raises. */
module Wrappers {

  datatype Option<+T> = None | Some(value: T)

  datatype Result<+T, +E> = Success(value: T) | Failure(error: E)
}

/** Optional values and results with an error, used for the script's
    "not found" and fatal-exit paths. */
module Wrappers {
  datatype Option<+T> = None | Some(value: T)

  datatype Result<+R, +E> = Success(value: R) | Failure(error: E)
}

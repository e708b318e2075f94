/** Optional values and results with an error side, used for the
    exceptions that stop a conversion run. */
module Wrappers {

  datatype Option<+T> = None | Some(value: T)

  datatype Result<+R, +E> = Success(value: R) | Failure(error: E)
}

/** Optional values and results with an error, used for the environment
    variables and for the start-up decisions that can refuse to proceed. */
module Wrappers {

  datatype Option<+T> = None | Some(value: T)

  datatype Result<+R, +E> = Success(value: R) | Failure(error: E)
}

/** Optional values and results with an error, used wherever the recorder
    either produces something or reports why it could not. */
module Wrappers {
  datatype Option<+T> = None | Some(value: T)

  datatype Result<+R, +E> = Success(value: R) | Failure(error: E)
}

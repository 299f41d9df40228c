/** Optional values and results with an error, used wherever the nodes read an
    optional parameter or may throw. */
module Wrappers {

  datatype Option<+T> = None | Some(value: T)

  datatype Result<+R, +E> = Success(value: R) | Failure(error: E)
}

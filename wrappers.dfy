/** Optional values and results with an error, as returned by the standard
    library calls (`rfind`, `parse`) and by `FromStr::from_str`. */
module Wrappers {

  datatype Option<+T> = None | Some(value: T)

  datatype Result<+R, +E> = Success(value: R) | Failure(error: E)
}

/** Optional values and results with an error, used wherever the source has
    a nullable reference, a missing dictionary entry or an exception. */
module Wrappers {

  datatype Option<+T> = None | Some(value: T)

  datatype Result<+T, +E> = Ok(value: T) | Err(error: E)
}

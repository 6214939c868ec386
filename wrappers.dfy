/** Optional values and results with an error, used wherever the modelled
    code can come back empty-handed or raise. */
module Wrappers {

  datatype Option<+T> = None | Some(value: T)

  datatype Result<+T, +E> = Ok(value: T) | Err(error: E)
}

/** Optional values and results with an error, used for the external
    capabilities (a reply, a pattern match) and for the failures that abort
    an evaluation. */
module Wrappers {

  datatype Option<+T> = None | Some(value: T)

  datatype Result<+T, +E> = Ok(value: T) | Err(error: E)
}

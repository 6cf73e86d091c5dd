/** Optional values and results, used for the record's optional keys and for the
    formatter's failure path. */
module Wrappers {

  datatype Option<+T> = None | Some(value: T)

  datatype Result<+R, +E> = Ok(value: R) | Err(error: E)
}

/** Option and Result, used for the nullable columns of the store and for the
    errors the handlers report. */
module Wrappers {

  datatype Option<+T> = None | Some(value: T)

  datatype Result<+T, +E> = Ok(value: T) | Err(error: E)
}

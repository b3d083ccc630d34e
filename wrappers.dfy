/** Option and Result: pandas' missing marker (NaN) and the exceptions read_data can raise. */
module Wrappers {

  datatype Option<+T> = None | Some(value: T)

  datatype Result<+T, +E> = Ok(value: T) | Err(error: E)
}

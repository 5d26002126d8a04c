/** Option and Result: the absent value (`nil`) and the raised exception of the Ruby code. */
module Wrappers {

  datatype Option<+T> = None | Some(value: T)

  datatype Result<+T, +E> = Ok(value: T) | Err(error: E)
}

/** Option and Result, the shapes of `x ?? y` lookups and of handlers that throw. */
module Wrappers {
  datatype Option<+T> = None | Some(value: T)

  datatype Result<+T, +E> = Ok(value: T) | Err(error: E)
}

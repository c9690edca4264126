/** Results of operations that can fail or find nothing. */
module Wrappers {
  datatype Result<+T, +E> = Ok(value: T) | Err(error: E)
  datatype Option<+T> = None | Some(value: T)
}

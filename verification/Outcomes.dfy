/** The result of an operation that the program reports through an error return. */
module Outcomes {
  datatype Result<+T, +E> = Ok(value: T) | Err(error: E)
  datatype Option<+T> = None | Some(value: T)
}

/** Stand-ins for the source's optional values and exceptions. */
module Wrappers {
  datatype Option<+T> = None | Some(value: T)

  /** The value a function returns, or the reason it throws. */
  datatype Result<+T, +E> = Ok(value: T) | Err(error: E)
}

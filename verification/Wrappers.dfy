/** The two result shapes that the models share. */
module Wrappers {
  datatype Option<+T> = None | Some(value: T)

  /** A call that may throw. */
  datatype Result<+T, +E> = Ok(value: T) | Err(error: E)
}

/** Option and Result types used for the source's null returns and exceptions. */
module Wrappers {

  datatype Option<+T> = None | Some(value: T)

  datatype Result<+T, +E> = Ok(value: T) | Err(error: E)

  /** A result without a value: the operation either passed or failed with an error. */
  datatype Outcome<+E> = Pass | Fail(error: E)
}

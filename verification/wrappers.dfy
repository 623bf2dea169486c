/** Failure-carrying wrappers shared by the filter model. */
module Wrappers {

  /** An optional value: `None` plays the part of Ruby's `nil`. */
  datatype Option<+T> = None | Some(value: T)

  /** Either a value or the error an operation raised. */
  datatype Result<+T, +E> = Ok(value: T) | Err(error: E)
}

/** Option and Result, the failure-carrying values used throughout the model. */
module Wrappers {

  datatype Option<+T> = None | Some(value: T)

  /** A Rust `Result`: either a value or an error. */
  datatype Result<+T, +E> = Ok(value: T) | Err(error: E)
}

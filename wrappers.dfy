/** Option and Result, the two failure-carrying datatypes used throughout the model. */
module Wrappers {

  datatype Option<+T> = None | Some(value: T)

  /** `Err` stands for an abort of the organisation run: an `_error_out`, a raised
      `click.FileError`, or an exception escaping from the standard library. */
  datatype Result<+T, +E> = Ok(value: T) | Err(error: E)
}

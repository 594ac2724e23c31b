/** Option and Result: absent values and raised exceptions of the Python source. */
module Wrappers {

  datatype Option<+T> = None | Some(value: T)

  /** `Err` carries the message of the exception the source raises. */
  datatype Result<+T> = Ok(value: T) | Err(error: string)
}

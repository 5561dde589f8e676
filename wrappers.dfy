/** Option and Result values: Python's None-or-value and raise-or-return, made explicit. */
module Wrappers {

  datatype Option<+T> = None | Some(value: T)

  /** `Err` stands for an exception the Python code raises; its payload names the error. */
  datatype Result<+T, +E> = Ok(value: T) | Err(error: E)
}

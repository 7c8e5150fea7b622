/** Option and Result, used for Go's nil pointers and (value, error) pairs. */
module Wrappers {

  /** `None` stands for a nil pointer or a nil error. */
  datatype Option<+T> = None | Some(value: T)

  /** A value or an error message. */
  datatype Result<+T, +E> = Ok(value: T) | Err(error: E)
}

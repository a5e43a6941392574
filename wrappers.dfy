/** Option and result types for the error paths of the interpreter front end. */
module Wrappers {

  /** A value that may be absent. */
  datatype Option<+T> = None | Some(value: T)

  /** A value, or the error that a Python expression would have raised instead. */
  datatype Result<+T, +E> = Ok(value: T) | Err(error: E)
}

/** Small failure-carrying datatypes shared by the modules of this model. */
module Wrappers {

  /** A value that may be absent. */
  datatype Option<+T> = None | Some(value: T)

  /** A value or an error message, as a Go `(value, error)` pair. */
  datatype Result<+T> = Ok(value: T) | Err(message: string)
}

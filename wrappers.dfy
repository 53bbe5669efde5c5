/** Option and Result, the two shapes in which the recap cycle receives the
    outcomes of its external collaborators. */
module Wrappers {

  /** A value that may be absent, such as an unset environment variable. */
  datatype Option<+T> = None | Some(value: T)

  /** The outcome of a call that may fail; the failure carries a message. */
  datatype Result<+T> = Ok(value: T) | Err(message: string)
}

/** The two value-level wrappers shared by every component: a missing value and a
    Python exception.  An exception is modelled as the `Err` case of a result. */
module Outcome {
  datatype Option<+T> = None | Some(value: T)

  datatype Result<+T, +E> = Ok(value: T) | Err(error: E)
}

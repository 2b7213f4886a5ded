/** Failure-carrying datatypes used by the model. */
module Wrappers {

  /** An answer that may be missing. */
  datatype Option<+T> = None | Some(value: T)

  /** A value, or the reason it could not be produced. */
  datatype Result<+T, +E> = Ok(value: T) | Err(error: E)
}

/** Failure-compatible result types shared by the store, the client and the control loops. */
module Wrappers {

  datatype Option<+T> = None | Some(value: T)

  /** A computation that yields a value or an error. */
  datatype Result<+T, +E> = Ok(value: T) | Err(error: E)

  /** A computation that yields no value, only success or an error. */
  datatype Outcome<+E> = Pass | Fail(error: E)
}

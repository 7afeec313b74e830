/** The Option, Result and Outcome datatypes shared by the configuration modules. */
module Wrappers {

  /** A value that may be absent (Python's `None`). */
  datatype Option<+T> = None | Some(value: T)

  /** A value, or the error that stopped the computation producing it. */
  datatype Result<+R, +E> = Success(value: R) | Failure(error: E)

  /** Success without a value, or an error. */
  datatype Outcome<+E> = Pass | Fail(error: E)
}

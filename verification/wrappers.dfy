/** Option and Result datatypes shared by the quiz model. */
module Wrappers {

  /** A value that may be absent, like a key missing from a Python dict. */
  datatype Option<+T> = None | Some(value: T)

  /** The outcome of a handler: its value, or the exception it raised. */
  datatype Result<+R, +E> = Success(value: R) | Failure(error: E)
}

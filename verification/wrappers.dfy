/** The Option and Result datatypes shared by the modules of this project. */
module Wrappers {

  /** A value that may be absent: a JavaScript `null`/`undefined` or a missing field. */
  datatype Option<+T> = None | Some(value: T)

  /** The outcome of a handler that can throw. */
  datatype Result<+R, +E> = Success(value: R) | Failure(error: E)
}

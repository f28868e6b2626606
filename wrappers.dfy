/** Option and Result datatypes shared by the other modules. */
module Wrappers {

  /** A value that may be missing (`undefined` or `null` in the source). */
  datatype Option<+T> = None | Some(value: T)

  /** The outcome of a step that can throw: a value, or the error it threw. */
  datatype Result<+R, +E> = Success(value: R) | Failure(error: E)
}

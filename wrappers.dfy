/** JavaScript's nullable values and the success-or-error results of the workflows. */
module Wrappers {

  /** A value that may be `null` or `undefined`. */
  datatype Option<+T> = None | Some(value: T)

  /** An outcome that is either a value or an error report. */
  datatype Result<+R, +E> = Success(value: R) | Failure(error: E)
}

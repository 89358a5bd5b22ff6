/** Failure-compatible result types for the operations that can report an
    error to their caller (an unknown pacer or generator name). */
module Wrappers {

  datatype Option<+T> = None | Some(value: T)

  datatype Result<+R, +E> = Success(value: R) | Failure(error: E)
}

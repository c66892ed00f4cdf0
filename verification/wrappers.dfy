/** Option and Result datatypes used by the engine model. */
module Wrappers {

  /** A value that may be absent (a JavaScript `undefined`/`null` object field). */
  datatype Option<+T> = None | Some(value: T)

  /** Either a computed value or an error message (a thrown `Error`). */
  datatype Result<+R, +E> = Success(value: R) | Failure(error: E)
}

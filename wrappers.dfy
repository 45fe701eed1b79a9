/** Small failure-carrying datatypes shared by the model. */
module Wrappers {

  /** A value that may be absent (TypeScript `undefined`). */
  datatype Option<+T> = None | Some(value: T)

  /** A computation that either yields a value or throws an error. */
  datatype Result<+T, +E> = Success(value: T) | Failure(error: E)
}

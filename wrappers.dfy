/** Failure-carrying values used by the parsers. */
module Wrappers {

  /** A value that may be missing, for a parse that may fail. */
  datatype Option<+T> = None | Some(value: T)

  /** A value or the reason it could not be produced. */
  datatype Result<+T, +E> = Success(value: T) | Failure(error: E)
}

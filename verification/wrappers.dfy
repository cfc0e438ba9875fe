/** Failure-carrying values shared by the other modules. */
module Wrappers {

  /** A value that may be absent; stands in for a Kotlin nullable. */
  datatype Option<+T> = None | Some(value: T)

  /** A value, or the reason it could not be produced (an exception that escaped). */
  datatype Result<+T, +E> = Success(value: T) | Failure(error: E)
}

/** Failure-carrying values used where the dashboard raises (and then catches) an exception. */
module Wrappers {

  /** A value that may be absent: a missing spreadsheet cell, or a step that raised. */
  datatype Option<+T> = None | Some(value: T)

  /** The outcome of an operation that either yields a value or fails with an error kind. */
  datatype Result<+T, +E> = Success(value: T) | Failure(error: E)
}

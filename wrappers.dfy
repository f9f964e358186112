/** Failure-carrying values used in place of the exceptions the services throw. */
module Wrappers {

  datatype Option<+T> = None | Some(value: T)

  /** The value an operation returns, or the error it reports. */
  datatype Result<+T, +E> = Success(value: T) | Failure(error: E)

  /** The outcome of a guard that returns nothing when it passes. */
  datatype Outcome<+E> = Pass | Fail(error: E)
}

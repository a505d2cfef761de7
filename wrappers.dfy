// Failure-carrying values used for the exceptions the cmdlets throw and for
// the references that may be null.
module Wrappers {

  /** A possibly-null reference: `None` is `null`. */
  datatype Option<+T> = None | Some(value: T)

  /** The outcome of a command: the emitted object, or the exception it threw. */
  datatype Result<+R, +E> = Success(value: R) | Failure(error: E)

  /** The outcome of a check that produces nothing but may throw. */
  datatype Outcome<+E> = Pass | Fail(error: E)
}

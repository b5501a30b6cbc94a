/** Failure-carrying results used in place of the source's exceptions and nulls. */
module Wrappers {

  datatype Option<+T> = None | Some(value: T)

  /** The result of an operation that yields a value or fails with an error. */
  datatype Result<+T, +E> = Success(value: T) | Failure(error: E)

  /** The result of an operation that yields nothing (a `void` method) or fails. */
  datatype Outcome<+E> = Pass | Fail(error: E)
}

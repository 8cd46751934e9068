/** Optional values and success-or-error results used across the ledger model. */
module Outcomes {

  /** A value that may be absent: an empty form field, a missing stored key. */
  datatype Option<+T> = None | Some(value: T)

  /** The outcome of an operation that can be refused with a reason. */
  datatype Result<+T, +E> = Success(value: T) | Failure(error: E)

  /** The outcome of an operation that yields nothing but can be refused. */
  datatype Outcome<+E> = Pass | Fail(error: E)
}

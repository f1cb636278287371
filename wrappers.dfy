/** Failure-carrying wrappers used by every module of the model. */
module Wrappers {

  /** An optional value: `undefined` in the source becomes None. */
  datatype Option<+T> = None | Some(value: T)

  /** A value-returning operation that either succeeds or throws. */
  datatype Result<+T, +E> = Ok(value: T) | Err(error: E)

  /** An operation without a result value that either completes or throws. */
  datatype Outcome<+E> = Pass | Fail(error: E)

  /** `x || 0` for an optional number. */
  function OrZero(x: Option<int>): int
  {
    match x
    case Some(v) => v
    case None => 0
  }
}

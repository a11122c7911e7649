/** Failure-carrying results: `Option` for JavaScript's `undefined`-able
    fields, `Result` and `Outcome` for operations that either return or throw. */
module Wrappers {

  datatype Option<+T> = None | Some(value: T) {
    /** The value, or `default` when absent (JavaScript's `x || default`
        for values that are never falsy). */
    function GetOr(default: T): T {
      match this
      case Some(v) => v
      case None => default
    }
  }

  /** A value, or the error an operation throws instead. */
  datatype Result<+T, +E> = Success(value: T) | Failure(error: E)

  /** Completion without a value, or the error thrown. */
  datatype Outcome<+E> = Pass | Fail(error: E)
}

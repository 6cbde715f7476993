/** Failure-compatible wrappers shared by every module of the screener model.
    `Option` stands for a JavaScript `number | null` (and for NaN, which the
    screener can never tell apart from a missing value); `Result` stands for an
    HTTP handler that either answers with a value or with a 4xx message. */
module Wrappers {

  datatype Option<+T> = None | Some(value: T) {

    predicate IsFailure() {
      None?
    }

    function PropagateFailure<U>(): Option<U>
      requires None?
    {
      None
    }

    function Extract(): T
      requires Some?
    {
      value
    }

    /** The value, or `default` when there is none (JavaScript's `x || 0`
        when `x` can only be a non-zero number or null). */
    function GetOr(default: T): T {
      match this
      case Some(v) => v
      case None => default
    }
  }

  datatype Result<+R, +E> = Success(value: R) | Failure(error: E) {

    predicate IsFailure() {
      Failure?
    }

    function PropagateFailure<U>(): Result<U, E>
      requires Failure?
    {
      Failure(error)
    }

    function Extract(): R
      requires Success?
    {
      value
    }
  }
}

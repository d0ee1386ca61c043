/** Option and Result, the failure-carrying values used across the model. */
module Wrappers {

  /** A value that may be absent: a failed parse, a missing map entry, an undelivered payload. */
  datatype Option<+T> = None | Some(value: T) {
    function GetOr(default: T): T {
      match this
      case Some(v) => v
      case None => default
    }
  }

  /** A Go `(value, error)` pair where exactly one side is meaningful. */
  datatype Result<+T, +E> = Success(value: T) | Failure(error: E)
}

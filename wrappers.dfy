/** Option and Result, the two failure-carrying shapes used across the model. */
module Wrappers {

  /** A JavaScript value that may be `null` or `undefined` (None) or present (Some). */
  datatype Option<+T> = None | Some(value: T) {
    function GetOr(default: T): T {
      match this
      case Some(v) => v
      case None => default
    }
  }

  /** The outcome of an operation that either succeeds or is rejected with an error value. */
  datatype Result<+T, +E> = Ok(value: T) | Err(error: E)
}

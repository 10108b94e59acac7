/** Option and Result, the two failure-compatible wrappers the model uses. */
module Wrappers {

  /** An optional value: a missing record field, or an absent error. */
  datatype Option<+T> = None | Some(value: T) {
    /** The value, or `default` when there is none. */
    function GetOr(default: T): T {
      match this
      case Some(v) => v
      case None => default
    }
  }

  /** The outcome of an operation that can be rejected with an error. */
  datatype Result<+R, +E> = Success(value: R) | Failure(error: E)
}

/** Failure-compatible wrappers used across the model: an optional value
    (JavaScript's `undefined`/`null` versus a value) and the outcome of an
    operation that may throw an `Error` with a message. */
module Wrappers {

  datatype Option<+T> = None | Some(value: T) {
    function GetOr(default: T): T {
      match this
      case Some(v) => v
      case None => default
    }
  }

  datatype Result<+T, +E> = Success(value: T) | Failure(error: E)
}

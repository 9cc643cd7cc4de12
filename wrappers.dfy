/** Failure-carrying values shared by every module of the model. */
module Wrappers {

  /** A value that may be missing: JavaScript's `undefined`/`null`. */
  datatype Option<+T> = None | Some(value: T) {
    function GetOr(default: T): T {
      match this
      case Some(v) => v
      case None => default
    }
  }

  /** The outcome of a call that may throw or report an error. */
  datatype Result<+R, +E> = Success(value: R) | Failure(error: E)
}

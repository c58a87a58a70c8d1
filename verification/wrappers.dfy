/** Option and Result, the two failure-carrying shapes the model needs. */
module Wrappers {

  /** A value that may be missing: JavaScript's `undefined`/`null` results and optional arguments. */
  datatype Option<+T> = None | Some(value: T) {

    /** The value, or `default` when it is missing. */
    function GetOr(default: T): T {
      match this
      case Some(v) => v
      case None => default
    }
  }

  /** The outcome of an operation that can throw: either a value or the error it throws. */
  datatype Result<+R, +E> = Success(value: R) | Failure(error: E)
}

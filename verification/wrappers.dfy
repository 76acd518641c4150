/** Failure-compatible wrappers shared by the whole model. */
module Wrappers {

  /** A value that may be absent, as Python's `None`. */
  datatype Option<+T> = None | Some(value: T) {

    /** The wrapped value, or `default` when absent. */
    function GetOr(default: T): T {
      match this
      case Some(v) => v
      case None => default
    }
  }

  /** The outcome of an operation that either returns or raises. */
  datatype Result<+R, +E> = Success(value: R) | Failure(error: E)
}

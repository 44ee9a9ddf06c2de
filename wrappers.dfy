/** Option and Result values for the optional fields and thrown errors of the viewer. */
module Wrappers {

  /** A value that may be absent (`undefined` in the viewer's code). */
  datatype Option<+T> = None | Some(value: T) {

    /** Returns the value, or `default` when absent. */
    function GetOr(default: T): T {
      match this
      case Some(v) => v
      case None => default
    }
  }

  /** The outcome of an operation that may throw. */
  datatype Result<+T, +E> = Success(value: T) | Failure(error: E)
}

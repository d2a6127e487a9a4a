/** Option and Result values, used for Python's `None` and for exceptions. */
module Wrappers {

  datatype Option<+T> = None | Some(value: T) {
    function GetOr(default: T): T {
      match this
      case Some(v) => v
      case None => default
    }
  }

  /** The outcome of a call that either returns a value or raises. */
  datatype Result<+T, +E> = Ok(value: T) | Err(error: E)
}

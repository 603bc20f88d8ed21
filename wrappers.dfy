/** Option and Result, the failure-carrying datatypes the model returns. */
module Wrappers {

  datatype Option<+T> = None | Some(value: T) {
    /** The value if there is one, else `default`. */
    function GetOr(default: T): T {
      match this
      case Some(v) => v
      case None => default
    }
  }

  /** The outcome of an operation that may raise: a value, or the exception raised. */
  datatype Result<+T, +E> = Ok(value: T) | Err(error: E)
}

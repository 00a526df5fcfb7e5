/** Option and Result: the model's stand-ins for Python's `None` and for a
    constructor or function that raises `ValueError`. */
module Wrappers {

  datatype Option<+T> = None | Some(value: T) {

    function GetOr(default: T): T {
      match this
      case Some(v) => v
      case None => default
    }
  }

  /** Success(value) is a normal return; Failure(error) is a raised exception. */
  datatype Result<+T, +E> = Success(value: T) | Failure(error: E)
}

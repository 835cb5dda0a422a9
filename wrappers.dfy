/** Failure-compatible wrappers used throughout the model: an optional value
    (Python's `None` versus a value) and a result that carries either a value
    or the error the Python code would raise. */
module Wrappers {

  datatype Option<+T> = None | Some(value: T) {
    function GetOr(default: T): T {
      match this
      case Some(v) => v
      case None => default
    }
  }

  datatype Result<+T, +E> = Ok(value: T) | Err(error: E)
}

/** Failure-compatible wrappers used throughout the model: Python's `None`
    becomes `Option`, a raised exception becomes the `Err` case of `Result`. */
module Wrappers {

  datatype Option<+T> = None | Some(value: T) {
    /** The wrapped value, or `default` for `None` (Python's `x or default`). */
    function GetOr(default: T): T {
      match this
      case Some(v) => v
      case None => default
    }
  }

  datatype Result<+T, +E> = Ok(value: T) | Err(error: E)
}

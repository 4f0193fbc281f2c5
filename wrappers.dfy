/** Optional values and results with an error, as the script uses `None` and exceptions. */
module Wrappers {

  /** A value that may be missing: an absent dictionary key, or a Python `None`. */
  datatype Option<+T> = None | Some(value: T) {

    /** The value, or `default` when missing (Python's `dict.get(key, default)`). */
    function GetOr(default: T): T {
      match this
      case Some(v) => v
      case None => default
    }
  }

  /** The result of evaluating an expression that may raise. */
  datatype Result<+R, +E> = Ok(value: R) | Err(error: E)
}

/** Optional values and error-carrying results, as used by the rest of the model. */
module Wrappers {

  /** A value that may be absent: Python's `None` versus a present value. */
  datatype Option<+T> = None | Some(value: T) {

    /** The value, or `default` when absent (Python's `dict.get(key, default)`). */
    function GetOr(default: T): T {
      match this
      case Some(v) => v
      case None => default
    }
  }

  /** The outcome of a validation step: the cleaned value or the error raised. */
  datatype Result<+T, +E> = Ok(value: T) | Err(error: E)
}

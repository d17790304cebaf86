/** Optional values and typed error results shared by every module. */
module Wrappers {

  /** A value that may be absent (`undefined` / `None` in the source). */
  datatype Option<+T> = None | Some(value: T) {

    /** The value, or `default` when absent (the `??` / `||` fallbacks). */
    function GetOr(default: T): T {
      match this
      case Some(v) => v
      case None => default
    }
  }

  /** The outcome of an operation that throws or raises on failure. */
  datatype Result<+T, +E> = Ok(value: T) | Err(error: E)
}

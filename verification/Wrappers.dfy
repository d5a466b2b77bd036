/** Optional values and results shared by the whole model. */
module Wrappers {

  /** A value that may be absent (the source's `null` / `undefined`). */
  datatype Option<+T> = None | Some(value: T) {
    /** The value, or `default` when absent. */
    function GetOr(default: T): T {
      match this
      case Some(v) => v
      case None => default
    }
  }

  /** The outcome of an operation that either returns a value or raises an error. */
  datatype Result<+T, +E> = Ok(value: T) | Err(error: E)
}

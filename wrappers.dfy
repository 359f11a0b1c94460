/** Option and Result, the failure-carrying values used across the model. */
module Wrappers {

  /** A value that may be absent: a missing key, a JSON `null`/`undefined`, a SQL NULL. */
  datatype Option<T> = None | Some(value: T) {
    /** The wrapped value, or `default` when absent (Python's `x or default` on a non-falsy x). */
    function GetOr(default: T): T {
      match this
      case Some(v) => v
      case None => default
    }
  }

  /** The outcome of an operation that either yields a value or fails with an error. */
  datatype Result<T, E> = Ok(value: T) | Err(error: E)
}

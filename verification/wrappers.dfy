/** Failure-carrying datatypes used for the source's `None` returns and raised exceptions. */
module Wrappers {

  /** A value that may be absent (Python's `None`, or a missing dictionary key). */
  datatype Option<+T> = None | Some(value: T) {

    /** The held value, or `default` when absent (Python's `d.get(k, default)`). */
    function GetOr(default: T): T {
      match this
      case Some(v) => v
      case None => default
    }
  }

  /** The outcome of an operation that either returns a value or raises with a message. */
  datatype Result<+T, +E> = Ok(value: T) | Err(error: E)
}

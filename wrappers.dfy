/** Option and Result types shared by the page models. */
module Wrappers {

  /** A value that may be absent (Python's `None`, or a missing dictionary key). */
  datatype Option<+T> = None | Some(value: T) {
    function GetOr(default: T): T {
      match this
      case Some(v) => v
      case None => default
    }
  }

  /** The outcome of a step that can fail the way a Python exception aborts it. */
  datatype Result<+T, +E> = Ok(value: T) | Err(error: E)
}

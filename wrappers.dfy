/** Failure-compatible wrappers shared by the modules of this model. */
module Wrappers {

  /** A value that may be absent (Ruby's `nil`). */
  datatype Option<+T> = None | Some(value: T) {
    function GetOr(default: T): T {
      match this
      case Some(v) => v
      case None => default
    }
  }

  /** A value or the error that was raised instead of producing it. */
  datatype Result<+T, +E> = Ok(value: T) | Err(error: E)
}

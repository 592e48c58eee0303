/** Wrappers shared by the model: an optional value and a result. */
module Wrappers {

  /** A value that may be missing (Swift's `T?`). */
  datatype Option<+T> = None | Some(value: T) {
    /** The value, or `default` when missing (Swift's `?? default`). */
    function GetOr(default: T): T {
      match this
      case Some(v) => v
      case None => default
    }
  }

  /** The outcome of an operation that can throw. */
  datatype Result<+T, +E> = Ok(value: T) | Err(error: E)
}

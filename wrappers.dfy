/** Option and Result, the two wrappers every other module uses for
    `null`/`undefined` and for the outcome of a server call. */
module Wrappers {

  /** A value that may be absent (`T | null` in the client). */
  datatype Option<+T> = None | Some(value: T) {
    function GetOr(default: T): T {
      match this
      case Some(v) => v
      case None => default
    }
  }

  /** The outcome of an asynchronous operation: a value or an error. */
  datatype Result<+R, +E> = Ok(value: R) | Err(error: E)
}

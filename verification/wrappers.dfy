/** The two small datatypes every other module shares: `Option` for a value
    that may be absent and `Result` for a value or an error. */
module Wrappers {

  /** A value that may be absent: Go's nil slice or pointer, JavaScript's undefined. */
  datatype Option<+T> = None | Some(value: T) {
    function GetOr(default: T): T {
      match this
      case Some(v) => v
      case None => default
    }
  }

  /** Either a value or an error, as Go's `(T, error)` pairs are used. */
  datatype Result<+T, +E> = Ok(value: T) | Err(error: E)
}

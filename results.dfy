/** Optional values and outcomes that either carry a value or an error message. */
module Results {

  /** A value that may be missing (JavaScript `undefined`). */
  datatype Option<+T> = None | Some(value: T) {
    function GetOr(default: T): T {
      match this
      case Some(v) => v
      case None => default
    }
  }

  /** The outcome of an operation that can throw or reject with a message. */
  datatype Result<+T> = Ok(value: T) | Err(error: string)
}

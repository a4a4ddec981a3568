/** Failure-carrying datatypes used for the source's `null` returns and thrown errors. */
module Wrappers {

  /** `None` plays the role of a JavaScript `null`/`undefined` result. */
  datatype Option<+T> = None | Some(value: T) {

    /** Returns the value held in `Some`, or `default` for `None`. */
    function GetOr(default: T): T {
      match this
      case Some(v) => v
      case None => default
    }
  }

  /** `Err` carries the message of the `Error` the source would throw. */
  datatype Result<+R, +E> = Ok(value: R) | Err(error: E) {

    /** Forgets the error message. */
    function ToOption(): Option<R> {
      match this
      case Ok(v) => Some(v)
      case Err(_) => None
    }
  }
}

/** Small wrapper types shared by the back end and the front end models. */
module Common {

  /** A value that may be missing: Python's `None`, TypeScript's `null`/`undefined`. */
  datatype Option<T> = None | Some(value: T) {
    function GetOr(default: T): T {
      match this
      case Some(v) => v
      case None => default
    }
  }

  /** The settled result of an HTTP call made by the front end: the promise
      either resolved with a value or was rejected. */
  datatype Outcome<T> = Success(value: T) | Failure
}

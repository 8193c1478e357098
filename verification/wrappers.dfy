/** Optional values and results with an error message. */
module Wrappers {

  /** A value that may be absent: `null`/`undefined` in JavaScript, `None` in Python. */
  datatype Option<+T> = None | Some(value: T) {

    /** Returns the value, or `default` when there is none. */
    function GetOr(default: T): T {
      match this
      case Some(v) => v
      case None => default
    }
  }

  /** The outcome of an operation that can fail with a message. */
  datatype Result<+R> = Success(value: R) | Failure(error: string)
}

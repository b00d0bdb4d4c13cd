/** Optional values and results with an error message, as used throughout the model. */
module Wrappers {

  /** A value that may be absent: JavaScript's `null` / `undefined`. */
  datatype Option<+T> = None | Some(value: T) {

    /** The value, or `default` when absent. */
    function GetOr(default: T): T {
      if Some? then value else default
    }
  }

  /** The outcome of an operation that throws `new Error(message)` on failure. */
  datatype Result<+T> = Success(value: T) | Failure(error: string)
}

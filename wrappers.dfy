/** Optional values and outcomes that may fail, used throughout the model for
    JavaScript's `undefined`/`null` fields and for thrown exceptions. */
module Wrappers {

  /** A value that may be absent (`undefined` or `null` in the source). */
  datatype Option<+T> = None | Some(value: T) {
    /** The value, or `default` when absent (JavaScript's `??`). */
    function GetOr(default: T): T {
      match this
      case Some(v) => v
      case None => default
    }
  }

  /** The outcome of a computation that may throw. */
  datatype Result<+T> = Success(value: T) | Failure(error: string)
}

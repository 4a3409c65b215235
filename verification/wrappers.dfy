/** Optional values (Kotlin's nullable types) and failures (exceptions the source throws). */
module Wrappers {

  datatype Option<+T> = None | Some(value: T) {
    /** Kotlin's `?:` operator: the value, or `default` when it is null. */
    function GetOr(default: T): T {
      match this
      case Some(v) => v
      case None => default
    }
  }

  /** The outcome of an operation that may throw: `Failure` carries the reason. */
  datatype Result<+R> = Success(value: R) | Failure(error: string)
}

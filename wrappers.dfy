/** Optional values and error-carrying results shared by the whole model. */
module Wrappers {

  /** A value that may be absent (`undefined` / `null` in the dashboard). */
  datatype Option<+T> = None | Some(value: T) {
    function GetOr(default: T): T {
      match this
      case Some(v) => v
      case None => default
    }
  }

  /** The outcome of an operation that reports failure by a message instead of throwing. */
  datatype Result<+T> = Success(value: T) | Failure(error: string)
}

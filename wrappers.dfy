/** Optional values and results with an error path, used across the model. */
module Wrappers {

  /** An absent or present value (an absent JSON field, a failed call). */
  datatype Option<+T> = None | Some(value: T) {
    /** The value, or `default` when absent. */
    function GetOr(default: T): T
    {
      match this
      case Some(v) => v
      case None => default
    }
  }

  /** A value or the error that replaced it. */
  datatype Result<+R, +E> = Success(value: R) | Failure(error: E)
}

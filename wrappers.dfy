/** Optional values and results that carry an error, as used by the chart's data layer. */
module Wrappers {

  /** A value that may be absent (`undefined` in the chart's code). */
  datatype Option<+T> = None | Some(value: T) {
    function GetOr(default: T): T {
      match this
      case Some(v) => v
      case None => default
    }
  }

  /** The outcome of an operation that may throw. */
  datatype Result<+T, +E> = Ok(value: T) | Err(error: E)
}

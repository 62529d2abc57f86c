/** Option and Result, used for the source's `None` values and for the
    exceptions it raises. */
module Wrappers {

  datatype Option<+T> = None | Some(value: T) {
    /** Python's `d.get(key, default)` on a key that may be absent. */
    function GetOr(default: T): T {
      match this
      case Some(v) => v
      case None => default
    }
  }

  datatype Result<+R, +E> = Success(value: R) | Failure(error: E)
}

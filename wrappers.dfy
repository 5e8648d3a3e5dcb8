/** Option and Result: the source's `T | null` returns and its thrown errors. */
module Wrappers {

  /** `null` (None) or a value (Some). */
  datatype Option<+T> = None | Some(value: T) {
    function GetOr(default: T): T {
      match this
      case Some(v) => v
      case None => default
    }
  }

  /** A returned value (Success) or a thrown one (Failure). */
  datatype Result<+R, +E> = Success(value: R) | Failure(error: E)
}

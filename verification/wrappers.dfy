/** Kotlin's nullable values and thrown errors, as datatypes. */
module Wrappers {

  /** A value that may be absent: Kotlin's nullable types. */
  datatype Option<+T> = None | Some(value: T) {

    /** The wrapped value, or `default` when absent (Kotlin's `?:`). */
    function GetOr(default: T): (r: T)
      ensures Some? ==> r == value
      ensures None? ==> r == default
    {
      match this
      case Some(v) => v
      case None => default
    }
  }

  /** Either a value or an error: a Kotlin call that may throw. */
  datatype Result<+T, +E> = Success(value: T) | Failure(error: E)
}

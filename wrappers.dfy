/** Option and Result, the usual failure-carrying wrappers. */
module Wrappers {

  /** `None` stands for Go's nil (a nil map, a nil pointer, a nil error). */
  datatype Option<+T> = None | Some(value: T) {

    /** The wrapped value, or `default` when there is none. */
    function GetOr(default: T): (r: T)
      ensures Some? ==> r == value
      ensures None? ==> r == default
    {
      match this
      case Some(v) => v
      case None => default
    }
  }

  /** The outcome of a fallible step: a value, or the error it returned. */
  datatype Result<+R, +E> = Success(value: R) | Failure(error: E)
}

/** Failure-carrying return types shared by the stores and the settings helper. */
module Wrappers {

  /** A value that may be absent: a missing dictionary key, a lookup that finds nothing. */
  datatype Option<+T> = None | Some(value: T) {

    /** The wrapped value, or `default` when there is none. */
    function GetOr(default: T): (r: T)
      ensures Some? ==> r == value
      ensures None? ==> r == default
    {
      match this
      case Some(v) => v
      case None => default
    }
  }

  /** The outcome of an operation that raises an exception in the modelled program. */
  datatype Result<+R, +E> = Success(value: R) | Failure(error: E)
}

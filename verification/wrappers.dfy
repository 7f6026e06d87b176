/**
 * Failure-carrying wrappers shared by the whole model: `Option` for values
 * that may be absent (a missing parameter, an engine out-parameter left
 * untouched, a request that does not frame) and `Result` for computations
 * that may raise a C++ exception.
 */
module Wrappers {

  datatype Option<+T> = None | Some(value: T) {

    /** The wrapped value, or `default` when there is none. */
    function GetOr(default: T): T
    {
      match this
      case Some(v) => v
      case None => default
    }
  }

  datatype Result<+R, +E> = Success(value: R) | Failure(error: E)
}

/** The two failure-carrying shapes of the model: `Option` stands for a nullable
    column or relation, `Result` for an action that either succeeds with a new
    value or is refused with a reason (a redirect with an error flash, an abort,
    a thrown exception). */
module Wrappers {

  datatype Option<+T> = None | Some(value: T) {

    /** The wrapped value, or `default` when absent (PHP's `??`). */
    function GetOr(default: T): T {
      match this
      case Some(v) => v
      case None => default
    }
  }

  datatype Result<+R, +E> = Success(value: R) | Failure(error: E)
}

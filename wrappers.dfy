/** Option for values JavaScript leaves `undefined`, and Result for a call that either
    returns or throws. */
module Wrappers {

  datatype Option<T> = None | Some(value: T) {

    /** `value || default` for a value that is either a list or `undefined`. */
    function GetOr(default: T): T {
      match this
      case Some(v) => v
      case None => default
    }
  }

  /** A call that returned `value`, or one that threw (the model does not keep why). */
  datatype Result<T> = Success(value: T) | Failure
}

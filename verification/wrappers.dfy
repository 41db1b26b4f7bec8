/** Failure-carrying datatypes shared by the model. */
module Wrappers {

  datatype Option<+T> = None | Some(value: T) {

    /** The value held by Some, or `default` when None (Python's `dict.get(key, default)`). */
    function GetOr(default: T): T {
      match this
      case Some(v) => v
      case None => default
    }
  }

  /** The outcome of a transition: a new value, or an error that leaves the caller's state as it was. */
  datatype Result<+R, +E> = Success(value: R) | Failure(error: E)
}

/** Failure-compatible wrappers shared by every module of the model. */
module Wrappers {

  /** An optional value; `None` stands for JavaScript's `undefined` (or an absent key). */
  datatype Option<+T> = None | Some(value: T) {
    function GetOr(default: T): T {
      match this
      case Some(v) => v
      case None => default
    }
  }

  /** The outcome of a call that either returns a value or throws. */
  datatype Result<+R, +E> = Success(value: R) | Failure(error: E)
}

/** Option and Result, the two failure-carrying datatypes used throughout the model.
    Python's `None` becomes `None`, and a raised exception becomes `Failure(error)`. */
module Wrappers {

  datatype Option<+T> = None | Some(value: T) {
    function GetOr(default: T): T {
      match this
      case Some(v) => v
      case None => default
    }
  }

  datatype Result<+R, +E> = Success(value: R) | Failure(error: E)
}

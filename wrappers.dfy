/** Option and Result, used for the optional parameters of the error model and
    for constructions that throw. */
module Wrappers {

  /** `None` stands for an omitted (undefined) argument, or for a falsy value
      returned by a flattening callback. */
  datatype Option<+T> = None | Some(value: T) {
    function GetOr(default: T): T {
      match this
      case Some(v) => v
      case None => default
    }
  }

  /** `Failure` carries the value an operation throws. */
  datatype Result<+R, +E> = Success(value: R) | Failure(error: E)
}

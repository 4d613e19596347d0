/** Option, Outcome and Result, the three failure-carrying shapes the model needs. */
module Wrappers {

  datatype Option<+T> = None | Some(value: T) {
    function GetOr(default: T): T
    {
      match this
      case Some(v) => v
      case None => default
    }
  }

  /** Pass, or the first error found. */
  datatype Outcome<+E> = Pass | Fail(error: E)

  /** A value, or the error that prevented it. */
  datatype Result<+R, +E> = Success(value: R) | Failure(error: E)
}

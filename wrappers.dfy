/** Option and Result, used where Java passes null or throws. */
module Wrappers {

  /** `None` stands for a Java `null` reference. */
  datatype Option<+T> = None | Some(value: T) {
    function GetOr(default: T): T {
      match this
      case Some(v) => v
      case None => default
    }
  }

  /** The outcome of a step that either yields a value or raises `error`. */
  datatype Result<+T, +E> = Success(value: T) | Failure(error: E)
}

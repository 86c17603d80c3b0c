/** Plain `Option` and `Result` datatypes used throughout the model: `Option` stands for a Java reference
    that may be null or an empty `java.util.Optional`, `Result` for a call that either returns a
    value or throws. */
module Wrappers {

  datatype Option<+T> = None | Some(value: T) {

    /** The wrapped value, or `default` when there is none. */
    function GetOr(default: T): (r: T)
      ensures Some? ==> r == value
      ensures None? ==> r == default
    {
      match this
      case Some(v) => v
      case None => default
    }
  }

  datatype Result<+R, +E> = Success(value: R) | Failure(error: E)
}

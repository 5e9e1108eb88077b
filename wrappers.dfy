/** Small value wrappers shared by the whole model. */
module Wrappers {

  /** A value that may be SQL `null` (a nullable column). */
  datatype Option<+T> = None | Some(value: T) {
    function GetOr(default: T): T {
      match this
      case Some(v) => v
      case None => default
    }
  }

  /** A property of a JavaScript object that may be `undefined` (absent) or given. */
  datatype Optional<+T> = Absent | Given(value: T) {
    function GetOr(default: T): T {
      match this
      case Given(v) => v
      case Absent => default
    }
  }

  /** The outcome of a call that may throw. */
  datatype Result<+R, +E> = Success(value: R) | Failure(error: E)
}

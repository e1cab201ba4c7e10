/** Optional values and the outcome of a call that may throw. */
module Wrappers {

  /** A value that may be absent: JavaScript's `undefined`/`null` results. */
  datatype Option<+T> = None | Some(value: T) {
    function GetOr(default: T): T {
      match this
      case Some(v) => v
      case None => default
    }
  }

  /** The outcome of a JavaScript call: it returns a value or it throws. */
  datatype Try<+T> = Returns(value: T) | Throws
}

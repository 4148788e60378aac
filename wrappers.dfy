/** Option and Result values used where the Go code returns an `error` that may be nil. */
module Wrappers {

  /** A value that may be absent; `None` plays the role of Go's nil error. */
  datatype Option<+T> = None | Some(value: T) {
    function GetOr(default: T): T {
      match this
      case Some(v) => v
      case None => default
    }
  }

  /** A value or an error message, as the pair `(value, err)` of a Go function. */
  datatype Result<+R, +E> = Success(value: R) | Failure(error: E)
}

/** Go's `(value, error)` pairs and nil-able values, as datatypes. */
module Results {

  /** A value that may be absent; `None` plays the part of Go's nil. */
  datatype Option<+T> = None | Some(value: T) {
    function GetOr(default: T): T {
      match this
      case Some(v) => v
      case None => default
    }
  }

  /** The result of a Go call returning `(T, error)`: either the value or the error text. */
  datatype Result<+T> = Success(value: T) | Failure(error: string)
}

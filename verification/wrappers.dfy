/** Failure-carrying datatypes shared by the components: an optional value
    (a JavaScript `undefined`/`null` field, a Python `None`) and a result
    that is either a value or an error (a raised `HTTPException`). */
module Wrappers {

  datatype Option<+T> = None | Some(value: T) {

    /** The value, or `default` when there is none. */
    function GetOr(default: T): T {
      match this
      case Some(v) => v
      case None => default
    }
  }

  datatype Result<+R, +E> = Success(value: R) | Failure(error: E)
}

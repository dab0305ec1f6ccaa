/** Option and Result types standing in for Python's `Optional[...]` and for
    exceptions that a caller catches, and the outcome of a call on a service
    outside the model. */
module Wrappers {

  datatype Option<+T> = None | Some(value: T) {
    function GetOr(default: T): T {
      match this
      case Some(v) => v
      case None => default
    }
  }

  datatype Result<+T, +E> = Ok(value: T) | Err(error: E)

  /** What a call on an outside service did: returned a value, or raised an
      exception whose text is `message`. */
  datatype Call<+T> = Returned(value: T) | Raised(message: string)
}

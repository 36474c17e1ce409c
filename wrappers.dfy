/** Option and Result values for Python's `None` returns and raised errors. */
module Wrappers {

  datatype Option<T> = None | Some(value: T) {
    /** `x or default` for a value that is either `None` or a string. */
    function GetOr(default: T): T {
      match this
      case Some(v) => v
      case None => default
    }
  }

  datatype Result<T, E> = Success(value: T) | Failure(error: E)
}

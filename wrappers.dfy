/** Option and Result, for absent values and for the error paths of the loaders and builders. */
module Wrappers {

  datatype Option<T> = None | Some(value: T) {

    /** Python's `x or default` / `d.get(key, default)` on an optional value. */
    function GetOr(default: T): T
    {
      match this
      case Some(v) => v
      case None => default
    }
  }

  datatype Result<T, E> = Success(value: T) | Failure(error: E)
}

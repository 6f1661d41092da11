/** Option and Result values used across the model for the source's `None` and error returns. */
module Wrappers {
  datatype Option<T> = None | Some(value: T)
  {
    predicate IsSome() { Some? }

    function GetOr(default: T): T
    {
      match this
      case None => default
      case Some(v) => v
    }
  }

  /** An operation that either produces a value or fails with an error message. */
  datatype Result<T> = Ok(value: T) | Err(error: string)
}

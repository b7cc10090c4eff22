/**
 * Option and Result values shared by every module of the model: `None`
 * stands for SQL NULL, a missing dictionary key or a Python `None`, and
 * `Err` for an exception the source raises or an error it returns.
 */
module Wrappers {
  datatype Option<T> = None | Some(value: T)
  {
    function GetOr(default: T): (r: T)
      ensures Some? ==> r == value
      ensures None? ==> r == default
    {
      match this
      case Some(v) => v
      case None => default
    }
  }

  datatype Result<T> = Ok(value: T) | Err(error: string)
}

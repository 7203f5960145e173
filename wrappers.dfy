/** Optional values and outcomes of calls that may raise. */
module Wrappers {
  datatype Option<T> = None | Some(value: T)
  {
    function GetOr(default: T): T
    {
      if Some? then value else default
    }
  }

  /** `Err` carries the text of the Python exception that was raised. */
  datatype Result<T, E> = Ok(value: T) | Err(error: E)
}

/** Optional values, standing in for Python's `None` / a present value, and lookups that may miss. */
module Wrappers {
  datatype Option<T> = None | Some(value: T)
  {
    function GetOr(default: T): T
    {
      if Some? then value else default
    }
  }
}

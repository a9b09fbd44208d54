/** Optional values: a DOM lookup that may find nothing, a scroll that may not be requested. */
module Wrappers {

  datatype Option<+T> = None | Some(value: T)
  {
    /** The value, or `default` when there is none: a prop's fallback when it is left out. */
    function GetOr(default: T): T
    {
      if Some? then value else default
    }
  }
}

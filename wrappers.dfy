/** Optional values: a JSON object key that may be absent. */
module Wrappers {

  datatype Option<T> = None | Some(value: T) {

    /** Python's `d.get(key, default)` once the lookup has been made. */
    function GetOr(default: T): (r: T)
      ensures Some? ==> r == value
      ensures None? ==> r == default
    {
      match this
      case Some(v) => v
      case None => default
    }
  }
}

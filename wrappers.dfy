/** Optional values: the model's rendering of Python's `None` for nullable columns and missing keys. */
module Wrappers {

  datatype Option<+T> = None | Some(value: T) {

    /** The value wrapped in Some, or `default` for None (Python's `x if x is not None else default`). */
    function GetOr(default: T): (r: T)
      ensures Some? ==> r == value
      ensures None? ==> r == default
    {
      match this
      case Some(v) => v
      case None => default
    }
  }
}

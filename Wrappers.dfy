/** Python's `Optional[...]`: a value, or None. */
module Wrappers {

  datatype Option<T> = None | Some(value: T) {

    /** `x if x is not None else default`, as `dict.get(key, default)` answers. */
    function GetOr(default: T): (r: T)
      ensures Some? ==> r == value
      ensures None? ==> r == default
    {
      match this
      case Some(v) => v
      case None => default
    }
  }
}

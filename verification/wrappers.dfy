/** Optional values. `None` stands for a Go nil pointer or nil slice wherever
    the source distinguishes nil from an empty or zero value. */
module Wrappers {

  datatype Option<+T> = None | Some(value: T) {

    /** The wrapped value, or `default` when there is none. */
    function GetOr(default: T): T {
      match this
      case Some(v) => v
      case None => default
    }
  }

  /** Go's `len` and `range` treat a nil slice exactly like an empty one. */
  function Elements<T>(s: Option<seq<T>>): (r: seq<T>)
    ensures s.None? ==> r == []
    ensures s.Some? ==> r == s.value
  {
    s.GetOr([])
  }
}

/** The value that may be absent: SQL NULL, Python None, or a missing dictionary key. */
module Wrappers {
  datatype Option<+T> = None | Some(value: T) {
    function GetOr(default: T): T {
      match this
      case Some(v) => v
      case None => default
    }

    /** SQL's COALESCE(this, other). */
    function OrElse(other: Option<T>): Option<T> {
      if this.Some? then this else other
    }
  }
}

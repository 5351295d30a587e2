/** The usual optional-value wrapper: a Python value that may be absent
    (a missing key, a file that does not exist, a limit of None). */
module Wrappers {

  datatype Option<+T> = None | Some(value: T) {

    /** The value, or the default when absent (Python's `d.get(k, default)`). */
    function GetOr(default: T): T {
      match this
      case Some(v) => v
      case None => default
    }
  }
}

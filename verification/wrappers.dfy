/** Optional values shared by the dashboard model. */
module Wrappers {

  /** A value that may be missing: a pandas NaN/NaT cell, or an unselected option. */
  datatype Option<+T> = None | Some(value: T) {

    /** The wrapped value, or `default` when it is missing. */
    function GetOr(default: T): T {
      match this
      case Some(v) => v
      case None => default
    }
  }
}

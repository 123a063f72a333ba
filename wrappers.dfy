/** Present-or-absent values: a Go pointer field that may be nil, a map key
    that may be missing, a checked type assertion that may fail. */
module Wrappers {

  datatype Option<+T> = None | Some(value: T) {

    /** The wrapped value, or `default` when absent. */
    function GetOr(default: T): T {
      match this
      case Some(v) => v
      case None => default
    }
  }
}

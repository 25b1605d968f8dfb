/** Optional values: a request field, header or store entry that may be absent. */
module Wrappers {
  datatype Option<+T> = None | Some(value: T) {
    /** The value when present, otherwise the given default (the `x = d` destructuring default of JavaScript). */
    function GetOr(default: T): T {
      match this
      case Some(v) => v
      case None => default
    }
  }
}

/** Optional values, the counterpart of TypeScript's `T | undefined` and `T | null`. */
module Wrappers {
  datatype Option<+T> = None | Some(value: T) {
    /** `x ?? default` */
    function GetOr(default: T): T {
      match this
      case Some(v) => v
      case None => default
    }
  }
}

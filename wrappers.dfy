/** Optional values: a field of an upstream response that may be absent. */
module Wrappers {

  datatype Option<+T> = None | Some(value: T) {

    /** The value when present, `default` otherwise. This is JavaScript's
        `x || default` when a present value is never falsy, or when the only
        falsy present value equals `default` (an empty string with "" as the
        default, as for the page token). */
    function GetOr(default: T): T {
      match this
      case Some(v) => v
      case None => default
    }
  }
}

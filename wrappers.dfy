/** Optional values: stands for a JavaScript value that may be `undefined`
    (a missing property, a missing DOM element, an empty storage slot). */
module Wrappers {

  datatype Option<+T> = None | Some(value: T) {

    /** The value, or `default` when there is none (JavaScript's `x || default`
        for values that are never falsy when present). */
    function GetOr(default: T): T {
      match this
      case Some(v) => v
      case None => default
    }
  }
}

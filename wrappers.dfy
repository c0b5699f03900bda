/** Optional values: the model's rendering of JavaScript's `null` / `undefined`. */
module Wrappers {

  datatype Option<+T> = None | Some(value: T) {

    /** The value, or `default` when absent (the `x ?? default` / `x || default` idiom). */
    function GetOr(default: T): T {
      match this
      case Some(v) => v
      case None => default
    }
  }

  /** `xs ?? []`: a query result that may be null, read as a list. */
  function OrEmpty<T>(xs: Option<seq<T>>): seq<T> {
    match xs
    case Some(s) => s
    case None => []
  }
}

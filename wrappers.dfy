/** An optional value shared by every module. */
module Wrappers {

  /** A JavaScript value that may be absent (`null` / `undefined`), or present. */
  datatype Option<+T> = None | Some(value: T) {

    /** The value, or `default` when absent (JavaScript's `x ?? default`). */
    function GetOr(default: T): T {
      match this
      case Some(v) => v
      case None => default
    }
  }
}

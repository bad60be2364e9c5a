/**
 * An optional value. For `dispatch`'s `when`, `None` is an omitted or
 * `undefined` argument; for a callback's error, it is `null` or `undefined`.
 */
module Wrappers {
  datatype Option<+T> = None | Some(value: T) {
    /** The value held, or `default` when there is none. */
    function GetOr(default: T): T {
      match this
      case Some(v) => v
      case None => default
    }
  }
}

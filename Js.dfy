/** JavaScript value conventions the messaging page relies on. */
module Js {

  /** A value that may be `undefined` or `null` (None) or is present (Some). */
  datatype Option<+T> = None | Some(value: T) {

    /** The `x ?? fallback` operator on a defined-or-nullish value. */
    function GetOr(fallback: T): T {
      match this
      case Some(v) => v
      case None => fallback
    }
  }

  /** The `a ?? b` operator where both sides may be nullish. */
  function Coalesce<T>(a: Option<T>, b: Option<T>): Option<T> {
    if a.Some? then a else b
  }

  /** JavaScript truthiness of a string that may be missing: defined and not empty. */
  predicate Truthy(s: Option<string>) {
    s.Some? && s.value != ""
  }
}

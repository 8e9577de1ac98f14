/** Absent-or-present and success-or-failure values, for the dashboard's `undefined`/`null` and its exceptions. */
module Wrappers {

  datatype Option<+T> = None | Some(value: T) {

    /** The value, or a default standing for the right operand of `??`. */
    function GetOr(default: T): T {
      if Some? then value else default
    }
  }

  /** JavaScript truthiness of an optional string. */
  predicate Truthy(o: Option<string>) {
    o.Some? && o.value != ""
  }

  /** `s || undefined`. */
  function NonEmpty(s: string): Option<string> {
    if s == "" then None else Some(s)
  }

  datatype Result<+T, +E> = Ok(value: T) | Err(error: E)
}

/** A value that JavaScript may leave `undefined` or `null`. */
module Optional {

  datatype Option<+T> = None | Some(value: T) {

    /** The value, or `default` when there is none. */
    function GetOr(default: T): T {
      match this
      case Some(v) => v
      case None => default
    }
  }

  /** JavaScript's `s || d` on an optional string: `undefined`, `null` and `''` are falsy. */
  function OrElse(s: Option<string>, default: string): (r: string)
    ensures r == default || (s.Some? && r == s.value)
    ensures s.Some? && s.value != "" ==> r == s.value
    ensures (s.None? || s.value == "") ==> r == default
  {
    if s.Some? && s.value != "" then s.value else default
  }
}

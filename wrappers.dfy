/** The optional value used wherever the source has `undefined`, `null` or "no row". */
module Wrappers {
  datatype Option<+T> = None | Some(value: T) {
    /** `a ?? b` / SQL COALESCE(a, b). */
    function OrElse(other: Option<T>): Option<T> {
      if Some? then this else other
    }

    function GetOr(default: T): T {
      if Some? then value else default
    }
  }

  /** JavaScript truthiness of an optional string: absent and "" are falsy. */
  predicate Truthy(s: Option<string>) {
    s.Some? && s.value != ""
  }

  /** JavaScript truthiness of an optional number: absent and 0 are falsy. */
  predicate TruthyId(n: Option<int>) {
    n.Some? && n.value != 0
  }

  /** `s || d` for an optional string. */
  function OrDefault(s: Option<string>, d: string): (r: string)
    ensures Truthy(s) ==> r == s.value
    ensures !Truthy(s) ==> r == d
  {
    if Truthy(s) then s.value else d
  }

  /** A destructuring default `{ x = d }`, taken when the field is None. None stands for a
      field the body leaves out; a JSON null, which JavaScript does not replace, is not told apart. */
  function Defaulted(s: Option<string>, d: string): string {
    if s.Some? then s.value else d
  }
}

/** The optional value the search bar receives for every field it may leave
    out (`query?`, `category?`, `city?`): `None` stands for `undefined`. */
module Wrappers {

  datatype Option<+T> = None | Some(value: T)
}

/** JavaScript truthiness of an optional string, as the search bar uses it:
    `undefined` and the empty string are falsy, every other string is truthy
    (a string made of spaces included). */
module Truthiness {
  import opened Wrappers

  /** `if (s)` on a `string | undefined`. */
  predicate Truthy(s: Option<string>)
    ensures !Truthy(s) <==> s == None || s == Some("")
  {
    s.Some? && s.value != ""
  }

  /** The expression `s || fallback` on a `string | undefined`. */
  function OrElse(s: Option<string>, fallback: string): (r: string)
    ensures Truthy(s) ==> r == s.value
    ensures !Truthy(s) ==> r == fallback
    ensures r == "" ==> !Truthy(s) && fallback == ""
  {
    if Truthy(s) then s.value else fallback
  }

  /** Two optional strings with the same truthiness and the same truthy value
      behave alike under every `if (s)` test: `Some("")` and `None` are
      interchangeable. */
  predicate SameTruthy(a: Option<string>, b: Option<string>)
  {
    Truthy(a) == Truthy(b) && (Truthy(a) ==> a.value == b.value)
  }
}

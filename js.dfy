/** JavaScript values as the backend uses them: optional values and the
    truthiness tests (`x || d`, `if (x)`) that its handlers rely on. */
module Js {

  /** `undefined`/`null` (None) or a present value (Some). */
  datatype Option<+T> = None | Some(value: T)

  /** A string is truthy in JavaScript exactly when it is not empty.
      Token strings that are `undefined` or `null` are modelled as "". */
  predicate Truthy(s: string) {
    s != ""
  }

  /** An optional string is truthy when present and not empty. */
  predicate TruthyOpt(o: Option<string>) {
    o.Some? && Truthy(o.value)
  }

  /** `a || b` on strings: the first operand when truthy, else the second. */
  function OrElse(a: string, b: string): (r: string)
    ensures Truthy(a) ==> r == a
    ensures !Truthy(a) ==> r == b
    ensures Truthy(r) <==> Truthy(a) || Truthy(b)
  {
    if Truthy(a) then a else b
  }
}

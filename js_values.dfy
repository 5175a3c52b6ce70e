/** JavaScript values as the script uses them: values that may be `null` or
    `undefined`, truthiness of strings, and the `a || b` operator. */
module JsValues {

  /** A value that may be missing (`null` or `undefined` in the script). */
  datatype Option<+T> = None | Some(value: T)

  /** JavaScript truthiness of an optional string: missing and `""` are falsy. */
  predicate Truthy(o: Option<string>)
  {
    o.Some? && o.value != ""
  }

  /** `a || b` on optional strings: `a` when it is truthy, otherwise `b`. */
  function Or(a: Option<string>, b: Option<string>): (r: Option<string>)
    ensures Truthy(a) ==> r == a
    ensures !Truthy(a) ==> r == b
    ensures Truthy(r) <==> Truthy(a) || Truthy(b)
  {
    if Truthy(a) then a else b
  }

  /** `n || null` on an optional number: `0` is falsy. */
  function NumberOrNull(n: Option<int>): (r: Option<int>)
    ensures r.Some? <==> n.Some? && n.value != 0
    ensures r.Some? ==> r == n
  {
    if n.Some? && n.value != 0 then n else None
  }
}

/** JavaScript values as the controllers and the worker see them, and the
    truthiness test that every `if (!x)` guard in the source relies on. */
module Js {

  datatype Option<T> = None | Some(value: T)

  datatype Result<T, E> = Ok(value: T) | Err(error: E)

  /** The records an insert adds: none or one. */
  function AsSeq<T>(o: Option<T>): seq<T> {
    match o
    case None => []
    case Some(x) => [x]
  }

  /** A value read from a parsed JSON request body or a queue job payload.
      Numbers are integers here (NaN and fractions are not modelled). An array
      or a plain object is kept as its JSON text, so two of them are equal
      exactly when they have the same elements, or the same fields with the
      same values in the same order, as MongoDB compares embedded documents;
      every array and object is truthy, even an empty one. */
  datatype JsValue = Undefined | Null | Bool(b: bool) | Num(n: int) | Str(s: string) | Arr(items: string) | Obj(fields: string)

  /** JavaScript's ToBoolean: `false`, `0`, `""`, `null` and `undefined` are falsy. */
  predicate Truthy(v: JsValue) {
    match v
    case Undefined => false
    case Null => false
    case Bool(b) => b
    case Num(n) => n != 0
    case Str(s) => s != ""
    case Arr(_) => true
    case Obj(_) => true
  }

  /** `v ? v : fallback`, the defaulting idiom of the source. */
  function OrElse(v: JsValue, fallback: JsValue): JsValue {
    if Truthy(v) then v else fallback
  }

  /** A header or environment variable is a string or absent; `!h` holds for
      both the absent and the empty string. */
  predicate Supplied(h: Option<string>) {
    h.Some? && h.value != ""
  }
}

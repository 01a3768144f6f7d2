/**
 * The values a parsed JSON request body (or an Express query string) can hand
 * to a handler, with JavaScript's notion of truthiness on them.
 */
module Json {

  /**
   * A field of a request. `Undefined` is a key that is absent from the body;
   * `Other` stands for arrays and objects, which the handlers never inspect.
   * JSON cannot carry NaN, so a number is a real (`-0` is the real 0).
   */
  datatype Value =
    | Undefined
    | Null
    | Bool(b: bool)
    | Str(s: string)
    | Num(n: real)
    | Other

  /** JavaScript truthiness: what `!v` and `v || d` test. */
  predicate Truthy(v: Value)
  {
    match v
    case Undefined => false
    case Null => false
    case Bool(b) => b
    case Str(s) => s != ""
    case Num(n) => n != 0.0
    case Other => true
  }

  /** `v || d`: the value itself when truthy, otherwise the fallback. */
  function Or(v: Value, d: Value): Value
  {
    if Truthy(v) then v else d
  }

  /** A destructuring default `{ x = d } = body`: applies only when the key is absent. */
  function DefaultIfUndefined(v: Value, d: Value): Value
  {
    if v.Undefined? then d else v
  }

  /** A conditional spread `...(v !== undefined && { f: v })` over a field currently holding `current`. */
  function Overlay(current: Value, v: Value): Value
  {
    if v.Undefined? then current else v
  }
}

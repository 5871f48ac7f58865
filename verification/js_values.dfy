/** JavaScript values as they reach a route handler, and the two pieces of
    JavaScript semantics the handlers lean on: truthiness (`if (x)`, `!x`,
    `a || b`) and destructuring defaults (`const { status = 'pending' } = body`). */
module JsValues {

  /** A value read from the query string, a path parameter or a parsed
      request body. A field the request does not carry is `Undefined`; JSON
      bodies can also carry `null`, booleans and numbers. */
  datatype JsValue = Undefined | Null | Bool(b: bool) | Num(x: real) | Str(s: string)

  /** JavaScript truthiness: `undefined`, `null`, `false`, `0` and `""` are falsy,
      everything else is truthy. */
  predicate Truthy(v: JsValue)
    ensures !Truthy(v) <==> v in {Undefined, Null, Bool(false), Num(0.0), Str("")}
  {
    match v
    case Undefined => false
    case Null => false
    case Bool(b) => b
    case Num(x) => x != 0.0
    case Str(s) => s != ""
  }

  /** `a || b`: the first operand when it is truthy, the second otherwise. */
  function Or(a: JsValue, b: JsValue): (r: JsValue)
    ensures r == a || r == b
    ensures Truthy(r) <==> Truthy(a) || Truthy(b)
    ensures Truthy(a) ==> r == a
    ensures !Truthy(a) ==> r == b
  {
    if Truthy(a) then a else b
  }

  /** The value bound by a destructuring pattern `{ x = d }`: the default replaces
      `undefined` only; `null`, `""` and every other falsy value pass through. */
  function WithDefault(v: JsValue, d: JsValue): (r: JsValue)
    ensures v != Undefined ==> r == v
    ensures v == Undefined ==> r == d
    ensures r == Undefined ==> d == Undefined
  {
    if v.Undefined? then d else v
  }
}

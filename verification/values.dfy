/**
 * Values shared by the route models: an optional value, and the JSON values a
 * request body can hold as the handlers see them after destructuring.
 */
module Values {

  /** The conventional optional value. */
  datatype Option<+T> = None | Some(value: T)

  /**
   * A value taken out of a parsed JSON request body. `Undefined` stands for a
   * field the body does not carry; `Composite` for any array or object.
   * JSON numbers are modelled as integers.
   */
  datatype Value =
    | Undefined
    | Null
    | Bool(b: bool)
    | Num(n: int)
    | Str(s: string)
    | Composite

  /** JavaScript falsiness (`!v`) restricted to the values above. */
  predicate Falsy(v: Value) {
    match v
    case Undefined => true
    case Null => true
    case Bool(b) => !b
    case Num(n) => n == 0
    case Str(s) => s == ""
    case Composite => false
  }

  /** The one-element list `[v]` when the field is supplied, otherwise nothing. */
  function Given(v: Value): (r: seq<Value>)
    ensures |r| <= 1
    ensures r == [] <==> v == Undefined
    ensures r != [] ==> r[0] == v
  {
    if v == Undefined then [] else [v]
  }
}

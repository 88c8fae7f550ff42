/**
 * The JavaScript values that flow through the utility layer: parsed JSON
 * bodies stored in the cache and the form data handed to the validator.
 * Numbers are modelled as integers.
 */
module JsValues {
  import opened Wrappers

  datatype Value =
    | Undefined
    | Null
    | Bool(b: bool)
    | Num(n: int)
    | Str(s: string)
    | Arr(items: seq<Value>)
    | Obj(fields: map<string, Value>)

  /** JavaScript truthiness: `undefined`, `null`, `false`, `0` and `''` are falsy, everything else is truthy. */
  predicate Truthy(v: Value)
    ensures !Truthy(v) <==> v in {Undefined, Null, Bool(false), Num(0), Str("")}
  {
    match v
    case Undefined => false
    case Null => false
    case Bool(b) => b
    case Num(n) => n != 0
    case Str(s) => s != ""
    case Arr(_) => true
    case Obj(_) => true
  }

  /** The `length` property read by `value.length`; `None` stands for `undefined`. */
  function LengthOf(v: Value): Option<nat> {
    match v
    case Str(s) => Some(|s|)
    case Arr(items) => Some(|items|)
    case _ => None
  }
}

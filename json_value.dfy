/** JSON-like values as the gateway handles them (request bodies, handler
    responses, configuration values), with JavaScript's truthiness. */
module JsonValue {

  /** The conventional optional value; `None` plays the role of `undefined`. */
  datatype Option<+T> = None | Some(value: T)

  /** A JSON-like value. Numbers are integers: floating point and NaN are not modelled. */
  datatype Json =
    | Null
    | Bool(b: bool)
    | Num(n: int)
    | Str(s: string)
    | Arr(items: seq<Json>)
    | Obj(fields: map<string, Json>)

  /** JavaScript truthiness: `null`, `false`, `0` and `""` are falsy; every
      array and every object, even an empty one, is truthy. */
  predicate Truthy(v: Json) {
    match v
    case Null => false
    case Bool(b) => b
    case Num(n) => n != 0
    case Str(s) => s != ""
    case Arr(_) => true
    case Obj(_) => true
  }

  /** `typeof v === 'object'`, which holds for `null`, arrays and objects. */
  predicate IsObjectType(v: Json) {
    v.Null? || v.Arr? || v.Obj?
  }

  /** Containers are exactly the values that are not primitives. */
  predicate IsContainer(v: Json) {
    v.Arr? || v.Obj?
  }

  lemma FalsyIsPrimitive(v: Json)
    ensures !Truthy(v) ==> !IsContainer(v)
    ensures !Truthy(v) <==> v == Null || v == Bool(false) || v == Num(0) || v == Str("")
  {
  }
}

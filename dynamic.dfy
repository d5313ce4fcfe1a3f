/**
 * The JavaScript values that a caller can put into the configuration object
 * handed to the `PureLocale` constructor, with the run-time type test
 * `typeof` that decides whether a field is taken over.
 */
module Dynamic {
  /** A JavaScript value, distinguished only as far as `typeof` does. */
  datatype Value =
    | Undefined
    | Null
    | Bool(b: bool)
    | Str(s: string)
    | Number
    | Array(items: seq<Value>)
    | Object(props: map<string, Value>)

  /** JavaScript's `typeof` operator; `null` and arrays are both "object". */
  function TypeOf(v: Value): (r: string)
    ensures r in {"undefined", "object", "boolean", "string", "number"}
    ensures r == "object" <==> v.Null? || v.Array? || v.Object?
    ensures r == "boolean" <==> v.Bool?
    ensures r == "string" <==> v.Str?
  {
    match v
    case Undefined => "undefined"
    case Null => "object"
    case Bool(_) => "boolean"
    case Str(_) => "string"
    case Number => "number"
    case Array(_) => "object"
    case Object(_) => "object"
  }

  /** The values that pass the `typeof ... === 'object'` test. */
  type ObjectValue = v: Value | TypeOf(v) == "object" witness Null

  /** Reading `obj.name` from a plain object: an absent property reads as `undefined`. */
  function Member(obj: map<string, Value>, name: string): (v: Value)
    ensures name !in obj ==> v == Undefined
    ensures name in obj ==> v == obj[name]
  {
    if name in obj then obj[name] else Undefined
  }
}

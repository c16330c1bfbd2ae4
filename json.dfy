/** Parsed JSON request values, with the JavaScript operations the route
    handlers apply to them: property access, `typeof` tests and truthiness.
    An absent property (JavaScript `undefined`) is `None`. */
module Json {
  import opened Wrappers

  /** A JSON value. Numbers are modelled as integers. */
  datatype Json =
    | JNull
    | JBool(b: bool)
    | JNum(n: int)
    | JStr(s: string)
    | JArr(items: seq<Json>)
    | JObj(fields: map<string, Json>)

  /** `v.key` (equally `v?.key`) on a value that may be `undefined`: only an
      object that has the key yields something. */
  function Member(v: Option<Json>, key: string): (r: Option<Json>)
    ensures r.Some? <==> v.Some? && v.value.JObj? && key in v.value.fields
    ensures r.Some? ==> r.value == v.value.fields[key]
  {
    if v.Some? && v.value.JObj? && key in v.value.fields then Some(v.value.fields[key]) else None
  }

  /** JavaScript truthiness: `undefined`, `null`, `false`, `0` and `""` are falsy. */
  predicate Truthy(v: Option<Json>) {
    match v
    case None => false
    case Some(j) =>
      match j
      case JNull => false
      case JBool(b) => b
      case JNum(n) => n != 0
      case JStr(s) => s != ""
      case JArr(_) => true
      case JObj(_) => true
  }

  /** `typeof v === 'object' && v !== null`: arrays are objects too. */
  predicate IsObject(v: Option<Json>) {
    v.Some? && (v.value.JObj? || v.value.JArr?)
  }

  /** `typeof v === 'number'`. */
  predicate IsNumber(v: Option<Json>) {
    v.Some? && v.value.JNum?
  }

  /** `typeof v === 'string'`. */
  predicate IsString(v: Option<Json>) {
    v.Some? && v.value.JStr?
  }
}

/** JSON values as `JSON.parse` produces them, and the three JavaScript coercions the
    configuration validator applies to them: truthiness, `String(v)` and `Number(v)`. */
module Json {
  import opened Wrappers

  /** A parsed JSON value. An object is a map from property name to value: the order
      of its properties is not modelled. */
  datatype Json =
    | JNull
    | JBool(b: bool)
    | JNumber(n: real)
    | JString(s: string)
    | JArray(items: seq<Json>)
    | JObject(fields: map<string, Json>)

  /** A thrown JavaScript error, by constructor and message. */
  datatype JsError =
    | Error(message: string)
    | TypeError(message: string)
    | RangeError(message: string)
    | SyntaxError(message: string)
    | AbortError(message: string)

  /** Reading `v.key` of a value that is not `null`: only objects have own properties
      among JSON values, so every other value gives `undefined`. */
  function Property(v: Json, key: string): (r: Option<Json>)
    ensures r.Some? <==> v.JObject? && key in v.fields
    ensures r.Some? ==> r.value == v.fields[key]
  {
    match v
    case JObject(fields) => if key in fields then Some(fields[key]) else None
    case _ => None
  }

  /** JavaScript truthiness of a value or of `undefined` (`None`). */
  predicate Truthy(v: Option<Json>) {
    match v
    case None => false
    case Some(JNull) => false
    case Some(JBool(b)) => b
    case Some(JNumber(n)) => n != 0.0
    case Some(JString(s)) => s != ""
    case Some(JArray(_)) => true
    case Some(JObject(_)) => true
  }

  /** `typeof v === 'object'`, which holds of `null` and of arrays too. */
  predicate IsObjectType(v: Option<Json>) {
    v.Some? && (v.value.JNull? || v.value.JArray? || v.value.JObject?)
  }

  /** The two coercions of the JavaScript engine that the model does not spell out:
      the shortest round-trip decimal spelling of a number, and the parse of a string
      into a number (`None` for `NaN`). */
  datatype Coercions = Coercions(numberToString: real -> string, stringToNumber: string -> Option<real>)

  /** `parts.join(',')`. */
  function Join(parts: seq<string>): (r: string)
    ensures parts == [] ==> r == ""
    ensures |parts| == 1 ==> r == parts[0]
  {
    if parts == [] then ""
    else if |parts| == 1 then parts[0]
    else parts[0] + "," + Join(parts[1..])
  }

  /** Whether `String(v)` and `Number(v)` reach a primitive value. An object with its
      own `toString` member makes both throw: a JSON value is never callable, so the
      engine skips that member and `valueOf`, which gives the object itself, and so
      finds no primitive. An array converts through its elements, at any depth. */
  predicate Convertible(v: Json) {
    match v
    case JObject(fields) => "toString" !in fields
    case JArray(items) => forall i :: 0 <= i < |items| ==> Convertible(items[i])
    case _ => true
  }

  /** `undefined` always converts. */
  predicate ConvertibleOpt(v: Option<Json>) {
    v.None? || Convertible(v.value)
  }

  /** What `String(v)` or `Number(v)` throws when `v` is not `Convertible`. */
  const ToPrimitiveError := TypeError("Cannot convert object to primitive value")

  /** Only an own `toString` member stops a conversion; arrays pass it on from their
      elements, and an object nested in another object plays no part. */
  lemma ConvertibleExamples(n: Json)
    ensures !Convertible(JObject(map["toString" := n]))
    ensures !Convertible(JArray([JString("chat"), JArray([JObject(map["toString" := n])])]))
    ensures Convertible(JObject(map["valueOf" := n, "inner" := JObject(map["toString" := n])]))
    ensures Convertible(JArray([JNull, JObject(map[])]))
  {
    var inner := JArray([JObject(map["toString" := n])]);
    assert !Convertible(inner.items[0]);
    assert !Convertible(JArray([JString("chat"), inner]).items[1]);
  }

  /** `String(v)` for a JSON value, when it returns (see `Convertible`): arrays join
      their elements with ',' (a `null` element contributes nothing) and every other
      object spells `[object Object]`. */
  function ToJsString(v: Json, co: Coercions): string
  {
    match v
    case JNull => "null"
    case JBool(b) => if b then "true" else "false"
    case JNumber(n) => co.numberToString(n)
    case JString(s) => s
    case JArray(items) =>
      Join(seq(|items|, i requires 0 <= i < |items| =>
        if items[i].JNull? then "" else ToJsString(items[i], co)))
    case JObject(_) => "[object Object]"
  }

  /** `String(v)` where `v` may be `undefined`. */
  function ToJsStringOpt(v: Option<Json>, co: Coercions): (r: string)
    ensures v == None ==> r == "undefined"
    ensures v.Some? && v.value.JString? ==> r == v.value.s
  {
    match v
    case None => "undefined"
    case Some(j) => ToJsString(j, co)
  }

  /** `Number(v)` where `v` may be `undefined`, when it returns (see `Convertible`);
      `None` is `NaN`. An array goes through its string form, and an object's string
      form `[object Object]` is never numeric. */
  function ToJsNumber(v: Option<Json>, co: Coercions): (r: Option<real>)
    ensures v == None ==> r == None
    ensures v.Some? && v.value.JNumber? ==> r == Some(v.value.n)
  {
    match v
    case None => None
    case Some(JNull) => Some(0.0)
    case Some(JBool(b)) => Some(if b then 1.0 else 0.0)
    case Some(JNumber(n)) => Some(n)
    case Some(JString(s)) => co.stringToNumber(s)
    case Some(JArray(_)) => co.stringToNumber(ToJsString(v.value, co))
    case Some(JObject(_)) => None
  }

  /** `Number.isInteger(x)` for a finite number. */
  predicate IsInteger(x: real) {
    x.Floor as real == x
  }
}

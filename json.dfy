/**
  The part of a `serde_json::Value` the viewer inspects: strings, objects keyed by
  string, and every other kind of value (null, booleans, numbers, arrays) lumped
  together, since the viewer never looks inside them.
*/
module Json {
  import opened Wrappers

  datatype Value = Str(text: string) | Object(fields: map<string, Value>) | Other

  /** `Value::get` with a string key: only an object has members. */
  function Get(v: Value, key: string): (r: Option<Value>)
    ensures r.Some? <==> v.Object? && key in v.fields
    ensures r.Some? ==> r.value == v.fields[key]
  {
    if v.Object? && key in v.fields then Some(v.fields[key]) else None
  }

  /** `Value::as_object`. */
  function AsObject(v: Value): (r: Option<map<string, Value>>)
    ensures r.Some? <==> v.Object?
    ensures r.Some? ==> v == Object(r.value)
  {
    if v.Object? then Some(v.fields) else None
  }

  /** `Value::as_str`. */
  function AsStr(v: Value): (r: Option<string>)
    ensures r.Some? <==> v.Str?
    ensures r.Some? ==> v == Str(r.value)
  {
    if v.Str? then Some(v.text) else None
  }

  /** `v.get(key).and_then(|d| d.as_str())`: a string member of an object. */
  function StrMember(v: Value, key: string): Option<string> {
    match Get(v, key)
    case None => None
    case Some(m) => AsStr(m)
  }

  /** `v.get(key).and_then(|o| o.as_object())`: an object member of an object. */
  function ObjectMember(v: Value, key: string): Option<map<string, Value>> {
    match Get(v, key)
    case None => None
    case Some(m) => AsObject(m)
  }
}

/** JSON-like values: parsed YAML and JSON documents, Python dicts, lists and scalars. */
module Json {
  import opened Wrappers

  datatype Json =
    | JNull
    | JBool(b: bool)
    | JInt(i: int)
    | JNum(r: real)                // a float, as an exact rational
    | JStr(s: string)
    | JList(items: seq<Json>)
    | JObj(fields: map<string, Json>)

  /** `d.get(key)` when `d` is a dict; `None` when the key is absent or `d` is no dict. */
  function Field(d: Json, key: string): (r: Option<Json>)
    ensures r.Some? <==> d.JObj? && key in d.fields
    ensures r.Some? ==> r.value == d.fields[key]
  {
    if d.JObj? && key in d.fields then Some(d.fields[key]) else None
  }

  /** Python's type name of a JSON value, as an `AttributeError` quotes it. */
  function TypeName(j: Json): string {
    match j
    case JNull => "NoneType"
    case JBool(_) => "bool"
    case JInt(_) => "int"
    case JNum(_) => "float"
    case JStr(_) => "str"
    case JList(_) => "list"
    case JObj(_) => "dict"
  }
}

/** The JSON values that `json.loads` and `request.get_json()` produce. */
module Json {
  /** Numbers are modelled as integers; see the README for what that leaves out. */
  datatype Json =
    | JNull
    | JBool(b: bool)
    | JNumber(n: int)
    | JString(s: string)
    | JArray(items: seq<Json>)
    | JObject(fields: map<string, Json>)

  /** `dict.get(key)` on a decoded object: the value, or `None` (JSON null) when absent. */
  function Get(fields: map<string, Json>, key: string): (r: Json)
    ensures key !in fields ==> r == JNull
    ensures key in fields ==> r == fields[key]
  {
    if key in fields then fields[key] else JNull
  }

  /** The Python type name of a decoded value, as error messages print it. */
  function TypeName(v: Json): string
  {
    match v
    case JNull => "NoneType"
    case JBool(_) => "bool"
    case JNumber(_) => "int"
    case JString(_) => "str"
    case JArray(_) => "list"
    case JObject(_) => "dict"
  }

  /** What `json.loads` gives back: a value, or `JSONDecodeError` with its message. */
  datatype Decoded = Decoded(value: Json) | DecodeError(message: string)
}

/**
 * JSON-shaped values as both Python and JavaScript see them, with the two languages'
 * truth values and default string conversions of scalars.
 */
module JsonModel {
  import opened Text

  /**
   * A JSON value. Objects are maps, so two objects are equal exactly when Python's `==` on
   * dicts says so (key order does not matter). Numbers are integers.
   */
  datatype Json =
    | JNull
    | JBool(b: bool)
    | JInt(i: int)
    | JString(s: string)
    | JArray(items: seq<Json>)
    | JObject(fields: map<string, Json>)
  {
    /** A Python dict or list: the values `json.dumps` is applied to before encryption. */
    predicate IsStructured() {
      JArray? || JObject?
    }

    /** A value for which JavaScript's `typeof` answers "object": null, arrays and objects. */
    predicate IsJsObject() {
      JNull? || JArray? || JObject?
    }
  }

  /** Python's truth value `bool(v)`. */
  predicate Truthy(v: Json) {
    match v
    case JNull => false
    case JBool(b) => b
    case JInt(i) => i != 0
    case JString(s) => s != []
    case JArray(items) => items != []
    case JObject(fields) => fields != map[]
  }

  /** Python's `str(v)` for a value that is neither a dict nor a list. */
  function PyStr(v: Json): string
    requires !v.IsStructured()
  {
    match v
    case JNull => "None"
    case JBool(b) => if b then "True" else "False"
    case JInt(i) => DecimalText(i)
    case JString(s) => s
  }

  /** JavaScript's `String(v)` for a value whose `typeof` is not "object". */
  function JsStr(v: Json): string
    requires !v.IsJsObject()
  {
    match v
    case JBool(b) => if b then "true" else "false"
    case JInt(i) => DecimalText(i)
    case JString(s) => s
  }
}

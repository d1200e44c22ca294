/**
 * A decoded JSON document, as `json.load` hands it to the validator: the
 * `isinstance(_, dict)`, `isinstance(_, list)` and `isinstance(_, str)` tests
 * of validate_kg_data.py become tests of the constructor.
 */
module JsonValue {

  datatype Json =
    | JNull
    | JBool(b: bool)
    | JNumber(literal: string)    // a number, kept as its literal text: the validator never inspects numbers
    | JString(str: string)
    | JArray(items: seq<Json>)
    | JObject(fields: map<string, Json>)

  /** `key in obj and isinstance(obj[key], str)` */
  predicate HasString(obj: map<string, Json>, key: string)
  {
    key in obj && obj[key].JString?
  }

  /** An optional field: either absent or a string. */
  predicate OptionalString(obj: map<string, Json>, key: string)
  {
    key in obj ==> obj[key].JString?
  }
}

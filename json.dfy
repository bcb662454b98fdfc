/**
  JSON values as the handlers see them: the body that `request.get_json()`
  hands over, the column values stored from it, and the mappings that the
  `serialize` methods build. `JNull` stands for Python's `None`, which is also
  what `request.get_json()` gives when there is no body.
 */
module Json {

  datatype Json =
    | JNull
    | JBool(b: bool)
    | JNum(n: int)
    | JStr(s: string)
    | JArr(items: seq<Json>)
    | JObj(fields: map<string, Json>)

  /** Python truthiness: None, False, 0, "", [] and {} are falsy; everything else is truthy. */
  predicate Truthy(v: Json) {
    match v
    case JNull => false
    case JBool(b) => b
    case JNum(n) => n != 0
    case JStr(s) => s != ""
    case JArr(items) => items != []
    case JObj(fields) => fields != map[]
  }

  /**
    A value a database driver can bind as a column or query parameter: an
    array or an object cannot be bound to a text, integer or boolean column.
   */
  predicate Scalar(v: Json) {
    !v.JArr? && !v.JObj?
  }

  /** `dict.get(key)`: the value under `key`, or None when the key is missing. */
  function Get(fields: map<string, Json>, key: string): Json {
    if key in fields then fields[key] else JNull
  }

}

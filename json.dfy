/**
 * Decoded JSON as Python's `response.json()` hands it over, with the Python
 * operations the adapters apply to it: truthiness, `dict.get` and `str`.
 */
module Json {
  import opened Wrappers
  import opened Text

  datatype Json =
    | JNull
    | JBool(b: bool)
    | JInt(i: int)
    | JStr(s: string)
    | JArr(items: seq<Json>)
    | JObj(fields: map<string, Json>)

  /** Python truthiness: `None`, `False`, `0`, `""`, `[]` and `{}` are false. */
  predicate Truthy(j: Json) {
    match j
    case JNull => false
    case JBool(b) => b
    case JInt(i) => i != 0
    case JStr(s) => s != ""
    case JArr(items) => |items| > 0
    case JObj(fields) => |fields| > 0
  }

  /** `obj.get(key, default)`: a present key wins even when its value is `null`. */
  function Get(fields: map<string, Json>, key: string, default: Json): (r: Json)
    ensures key in fields ==> r == fields[key]
    ensures key !in fields ==> r == default
  {
    if key in fields then fields[key] else default
  }

  /** `x or default`: the value itself when truthy, otherwise the default. */
  function Or(j: Json, default: Json): (r: Json)
    ensures Truthy(j) ==> r == j
    ensures !Truthy(j) ==> r == default
  {
    if Truthy(j) then j else default
  }

  /** An empty JSON object, Python's `{}`. */
  const EmptyObject: Json := JObj(map[])

  /**
   * Python's `str(x)` for a decoded JSON value. Arrays and objects are rendered
   * as a fixed placeholder: their `repr` is not modelled.
   */
  function PyStr(j: Json): string {
    match j
    case JNull => "None"
    case JBool(b) => if b then "True" else "False"
    case JInt(i) => IntToString(i)
    case JStr(s) => s
    case JArr(_) => "[...]"
    case JObj(_) => "{...}"
  }

  /** `str` of an integer id reads back as that integer. */
  lemma PyStrIntRoundTrip(i: int)
    ensures ParseInt(PyStr(JInt(i))) == Some(i)
  {
    ParseIntToString(i);
  }
}

/**
 * The dynamically typed values the exporter moves around: decoded JSON documents,
 * the dictionaries built from XML elements, and database rows. Python's `None` is
 * `JNull` wherever it appears (a missing value, a NULL column, a `None` result).
 * Floating-point numbers are not part of this model.
 */
module JsonValue {
  import opened Common

  datatype Json =
    | JNull
    | JBool(b: bool)
    | JInt(n: int)
    | JStr(s: string)
    | JList(items: seq<Json>)
    | JObj(fields: map<string, Json>)

  /** A record: one database row, or one decoded JSON object. */
  type Record = map<string, Json>

  /** A step of a lookup path: a dictionary key or a list position. */
  datatype Key = KS(name: string) | KI(index: int)

  /** Python truthiness. */
  predicate Truthy(v: Json) {
    match v
    case JNull => false
    case JBool(b) => b
    case JInt(n) => n != 0
    case JStr(s) => s != []
    case JList(items) => items != []
    case JObj(fields) => fields != map[]
  }

  /** `valor is None or (isinstance(valor, str) and not valor.strip())`. */
  predicate IsEmptyValue(v: Json) {
    v.JNull? || (v.JStr? && IsBlank(v.s))
  }

  /** `dict.get(key)`: `None` for a missing key. */
  function Get(r: Record, key: string): (v: Json)
    ensures key !in r ==> v == JNull
    ensures key in r ==> v == r[key]
  {
    if key in r then r[key] else JNull
  }

  /**
   * Python `str(v)`. Containers print as their `repr`, which is not modelled
   * and is taken as the parameter `reprOf`.
   */
  function PyStr(v: Json, reprOf: Json -> string): (s: string)
    ensures v.JStr? ==> s == v.s
    ensures v.JNull? ==> s == "None"
  {
    match v
    case JNull => "None"
    case JBool(b) => if b then "True" else "False"
    case JInt(n) => IntToString(n)
    case JStr(s) => s
    case JList(_) => reprOf(v)
    case JObj(_) => reprOf(v)
  }

  /** Text of a value as the CSV writer emits it: `None` becomes the empty cell. */
  function CellText(v: Json, reprOf: Json -> string): (s: string)
    ensures v.JNull? ==> s == ""
    ensures v.JStr? ==> s == v.s
  {
    if v.JNull? then "" else PyStr(v, reprOf)
  }
}

/**
 * Parsed JSON values as the FPL client sees them after `resp.json()`,
 * together with the pieces of Python semantics the client relies on:
 * truthiness, `dict.get` with a default, and iteration in a `for` clause.
 */
module Json {
  import opened Wrappers

  /** JSON numbers are modelled as integers only. */
  datatype Json =
    | JNull
    | JBool(b: bool)
    | JNum(n: int)
    | JStr(s: string)
    | JArr(items: seq<Json>)
    | JObj(fields: map<string, Json>)

  /** Python truthiness: None, False, 0, "", [] and {} are falsy. */
  predicate Truthy(v: Json)
    ensures Truthy(v) <==> v !in {JNull, JBool(false), JNum(0), JStr(""), JArr([]), JObj(map[])}
  {
    match v
    case JNull => false
    case JBool(b) => b
    case JNum(n) => n != 0
    case JStr(s) => s != ""
    case JArr(items) => items != []
    case JObj(fields) => fields != map[]
  }

  /** `d.get(key, default)` on a dict. */
  function Get(fields: map<string, Json>, key: string, default: Json): Json {
    if key in fields then fields[key] else default
  }

  /**
   * The values a `for p in v` clause visits, when every visited value is
   * then subscripted with a string key (as both comprehensions of the client
   * do). A list yields its items. Iterating a string or a dict yields
   * strings, and subscripting a string with a string key raises, so only the
   * empty string and the empty dict get through. Anything else is not
   * iterable. `None` stands for the raised TypeError.
   */
  function Iterate(v: Json): (r: Option<seq<Json>>)
    ensures r.Some? <==> v.JArr? || v == JStr("") || v == JObj(map[])
    ensures v.JArr? ==> r == Some(v.items)
    ensures r.Some? && !v.JArr? ==> r == Some([])
  {
    match v
    case JArr(items) => Some(items)
    case JStr(s) => if s == "" then Some([]) else None
    case JObj(fields) => if fields == map[] then Some([]) else None
    case _ => None
  }

  /** Python's `needle in haystack` for two strings. */
  predicate IsSubstring(needle: string, haystack: string)
    decreases |haystack|
  {
    (|needle| <= |haystack| && haystack[..|needle|] == needle)
    || (|haystack| > 0 && IsSubstring(needle, haystack[1..]))
  }
}

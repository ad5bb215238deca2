/** The scalar JSON values of user records, and the Python idioms used to read them. */
module Json {

  /** A JSON value; a list or an object is only known by its number of items. */
  datatype JValue = JNull | JBool(b: bool) | JNum(n: real) | JStr(s: string) | JContainer(size: nat)

  /** A decoded JSON object (`dict`), such as the user record of the main API. */
  type Object = map<string, JValue>

  /** Python truthiness of a decoded value. */
  predicate Truthy(v: JValue)
  {
    match v
    case JNull => false
    case JBool(b) => b
    case JNum(n) => n != 0.0
    case JStr(s) => s != ""
    case JContainer(size) => size > 0
  }

  /** `d.get(key, default)` */
  function GetOr(d: Object, key: string, default: JValue): (r: JValue)
    ensures key in d ==> r == d[key]
    ensures key !in d ==> r == default
  {
    if key in d then d[key] else default
  }

  /** `d.get(key)`: a missing key reads as `None`. */
  function Get(d: Object, key: string): JValue
  {
    GetOr(d, key, JNull)
  }

  /** `a or b` */
  function Or(a: JValue, b: JValue): (r: JValue)
    ensures Truthy(a) ==> r == a
    ensures !Truthy(a) ==> r == b
  {
    if Truthy(a) then a else b
  }
}

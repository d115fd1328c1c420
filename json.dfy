/**
 * The values `JSON.parse` produces, with the JavaScript notions the build tool applies
 * to them: truthiness, `typeof`, and `hasOwnProperty` followed by a property read.
 */
module JsonValues {
  import opened Wrappers

  /** A parsed JSON value; numbers are kept as integers. */
  datatype Json =
    | JNull
    | JBool(b: bool)
    | JNumber(n: int)
    | JString(s: string)
    | JArray(items: seq<Json>)
    | JObject(fields: map<string, Json>)

  /** JavaScript truthiness. */
  predicate Truthy(j: Json) {
    match j
    case JNull => false
    case JBool(b) => b
    case JNumber(n) => n != 0
    case JString(s) => s != ""
    case _ => true
  }

  /** `typeof j === 'object' && j !== null`: an array or an object. */
  predicate IsObjectLike(j: Json) {
    j.JArray? || j.JObject?
  }

  predicate IsDigit(c: char) {
    '0' <= c <= '9'
  }

  function DigitsValue(s: string): nat
    requires forall i :: 0 <= i < |s| ==> IsDigit(s[i])
  {
    if s == [] then 0
    else
      assert IsDigit(s[|s| - 1]);
      10 * DigitsValue(s[..|s| - 1]) + (s[|s| - 1] as int - '0' as int)
  }

  /** The array index a property key denotes: a canonical decimal numeral. */
  function ArrayIndex(key: string): (r: Option<nat>)
    ensures r.Some? ==> key != [] && (key == "0" || key[0] != '0')
  {
    if key != [] && (forall i :: 0 <= i < |key| ==> IsDigit(key[i])) && (key == "0" || key[0] != '0')
    then Some(DigitsValue(key))
    else None
  }

  /** `j.hasOwnProperty(key) ? j[key] : undefined`: object members, array and string
      elements by index, and their `length`; numbers, booleans and null have none. */
  function GetOwn(j: Json, key: string): (r: Option<Json>)
    ensures j.JObject? ==> (r.Some? <==> key in j.fields) && (r.Some? ==> r.value == j.fields[key])
    ensures j.JNull? || j.JBool? || j.JNumber? ==> r.None?
  {
    match j
    case JObject(m) => if key in m then Some(m[key]) else None
    case JArray(xs) =>
      if key == "length" then Some(JNumber(|xs|))
      else (match ArrayIndex(key)
        case Some(i) => if i < |xs| then Some(xs[i]) else None
        case None => None)
    case JString(s) =>
      if key == "length" then Some(JNumber(|s|))
      else (match ArrayIndex(key)
        case Some(i) => if i < |s| then Some(JString([s[i]])) else None
        case None => None)
    case _ => None
  }

  /** `xs.every(element => typeof element === 'string')` */
  predicate AllStrings(xs: seq<Json>) {
    forall i :: 0 <= i < |xs| ==> xs[i].JString?
  }

  /** The strings of an all-string array. */
  function StringItems(xs: seq<Json>): (r: seq<string>)
    requires AllStrings(xs)
    ensures |r| == |xs| && forall i :: 0 <= i < |xs| ==> r[i] == xs[i].s
  {
    if xs == [] then [] else [xs[0].s] + StringItems(xs[1..])
  }

  /** A member read as a string: present and of type string. */
  function StringMember(j: Json, key: string): Option<string> {
    match GetOwn(j, key)
    case Some(JString(s)) => Some(s)
    case _ => None
  }
}

/** The metadata payload of an audit row (a JSON object) and the few Python
    operations the renderers apply to it: `meta.get(key)`, truthiness, `or`
    defaults, and `str()` inside f-strings. */
module Meta {
  import opened Strings
  import opened Wrappers

  /** The JSON values the producers write into audit metadata. */
  datatype Json = JNull | JBool(b: bool) | JInt(i: int) | JStr(s: string)

  type Payload = map<string, Json>

  /** `meta.get(key)`: a missing key reads as None. */
  function Get(m: Payload, key: string): (v: Json)
    ensures key !in m ==> v == JNull
    ensures key in m ==> v == m[key]
  {
    if key in m then m[key] else JNull
  }

  /** Python truthiness of a JSON value. */
  predicate Truthy(v: Json) {
    match v
    case JNull => false
    case JBool(b) => b
    case JInt(i) => i != 0
    case JStr(s) => s != ""
  }

  /** `str(v)`, as an f-string renders the value. */
  function Show(v: Json): string {
    match v
    case JNull => "None"
    case JBool(b) => if b then "True" else "False"
    case JInt(i) => IntToString(i)
    case JStr(s) => s
  }

  /** `(meta.get(key) or "")` used as text; a non-string value reads as "". */
  function Text(m: Payload, key: string): (t: string)
    ensures Get(m, key).JStr? ==> t == Get(m, key).s
    ensures !Get(m, key).JStr? ==> t == ""
  {
    match Get(m, key)
    case JStr(s) => s
    case _ => ""
  }

  /** `meta.get(key) or fallback`, rendered with `str()`. */
  function ShowOr(v: Json, fallback: string): (s: string)
    ensures Truthy(v) ==> s == Show(v)
    ensures !Truthy(v) ==> s == fallback
  {
    if Truthy(v) then Show(v) else fallback
  }

  /** A JSON string or null, as the producers write optional text. */
  function StrOrNull(o: Option<string>): Json {
    match o
    case None => JNull
    case Some(s) => JStr(s)
  }

  /** A JSON integer or null, as the producers write optional ids. */
  function IntOrNull(o: Option<nat>): Json {
    match o
    case None => JNull
    case Some(i) => JInt(i)
  }

  /** A user id as the feed and the event hook read it back from metadata:
      an integer, or a string of digits. */
  function AsUserId(v: Json): (r: Option<int>)
    ensures v.JInt? ==> r == Some(v.i)
    ensures v.JStr? && IsDigits(v.s) ==> r == Some(DigitsValue(v.s))
    ensures !v.JInt? && !(v.JStr? && IsDigits(v.s)) ==> r.None?
  {
    match v
    case JInt(i) => Some(i)
    case JStr(s) => if IsDigits(s) then Some(DigitsValue(s)) else None
    case _ => None
  }

  lemma AsUserIdOfInt(n: nat)
    ensures AsUserId(JInt(n)) == Some(n)
    ensures AsUserId(JStr(NatToString(n))) == Some(n)
  {
    DigitsValueOfNatToString(n);
  }
}

/**
 * Decoded JSON as the Python code sees it, and the Python operations the core applies to it
 * (`.get`, subscripting, `len`, iteration, `in`, `==`, truthiness), each with the exception it
 * raises when the value has the wrong shape.
 */
module PyData {
  import opened Wrappers
  import opened Text

  /** A decoded JSON document. An object keeps its members in document order, as a Python dict does. */
  datatype Json =
    | JNull
    | JBool(b: bool)
    | JInt(i: int)
    | JStr(s: string)
    | JArr(items: seq<Json>)
    | JObj(members: seq<Member>)

  datatype Member = Member(key: string, value: Json)

  /** The exceptions the core raises or catches. */
  datatype Exc =
    | TypeError
    | KeyError
    | IndexError
    | AttributeError
      /** `ValueError("Empty response from Douyin API ...")` */
    | EmptyApiResponse(awemeId: string)
      /** `ValueError("Invalid JSON response from Douyin API ...")` with its diagnostic fields */
    | InvalidApiJson(awemeId: string, contentType: string, snippet: string)
      /** `ValueError("未能从链接中提取到 aweme_id")` */
    | NoAwemeId
      /** `ValueError("Unexpected Content-Type: ...")` */
    | UnexpectedContentType(header: Option<string>)
      /** `ValueError` from `int(text)` */
    | InvalidLiteral(text: string)
      /** a body that does not decode as JSON */
    | JsonDecodeError
      /** `raise_for_status()` on an error status */
    | HttpStatusError(status: int)
      /** a transport failure: connection reset, timeout, DNS */
    | NetworkFailure
      /** whatever an opaque collaborator raised */
    | CollaboratorFailure

  /** Python truthiness. */
  predicate Truthy(j: Json) {
    match j
    case JNull => false
    case JBool(b) => b
    case JInt(i) => i != 0
    case JStr(s) => s != ""
    case JArr(xs) => xs != []
    case JObj(ms) => ms != []
  }

  /** The value bound to `key` in an object's members. */
  function Lookup(ms: seq<Member>, key: string): (r: Option<Json>)
    ensures r.None? <==> forall k | 0 <= k < |ms| :: ms[k].key != key
  {
    if ms == [] then None
    else if ms[0].key == key then Some(ms[0].value)
    else Lookup(ms[1..], key)
  }

  /** `j.get(key, default)` */
  function GetOr(j: Json, key: string, default: Json): Result<Json, Exc> {
    match j
    case JObj(ms) => Ok(Lookup(ms, key).GetOr(default))
    case _ => Err(AttributeError)
  }

  /** `j.get(key)` */
  function Get(j: Json, key: string): Result<Json, Exc> {
    GetOr(j, key, JNull)
  }

  /** `j[key]` with a `str` key. */
  function Subscript(j: Json, key: string): Result<Json, Exc> {
    match j
    case JObj(ms) => if Lookup(ms, key).Some? then Ok(Lookup(ms, key).value) else Err(KeyError)
    case _ => Err(TypeError)
  }

  /** `j[i]` with an `int` index; a negative index counts from the end. */
  function Index(j: Json, i: int): Result<Json, Exc> {
    match j
    case JArr(xs) =>
      var k := if i < 0 then |xs| + i else i;
      if 0 <= k < |xs| then Ok(xs[k]) else Err(IndexError)
    case JStr(s) =>
      var k := if i < 0 then |s| + i else i;
      if 0 <= k < |s| then Ok(JStr([s[k]])) else Err(IndexError)
    case JObj(_) => Err(KeyError)
    case _ => Err(TypeError)
  }

  /** `len(j)` */
  function Len(j: Json): Result<nat, Exc> {
    match j
    case JArr(xs) => Ok(|xs|)
    case JStr(s) => Ok(|s|)
    case JObj(ms) => Ok(|ms|)
    case _ => Err(TypeError)
  }

  /** What `for x in j` yields: the items of a list, the characters of a string, the keys of a dict. */
  function Elements(j: Json): (r: Result<seq<Json>, Exc>)
    ensures r.Ok? <==> Len(j).Ok?
    ensures r.Ok? ==> Len(j) == Ok(|r.value|)
  {
    match j
    case JArr(xs) => Ok(xs)
    case JStr(s) => Ok(seq(|s|, k requires 0 <= k < |s| => JStr([s[k]])))
    case JObj(ms) => Ok(seq(|ms|, k requires 0 <= k < |ms| => JStr(ms[k].key)))
    case _ => Err(TypeError)
  }

  /** `key in j` for a `str` key. */
  function Has(j: Json, key: string): Result<bool, Exc> {
    match j
    case JObj(ms) => Ok(Lookup(ms, key).Some?)
    case JArr(xs) => Ok(JStr(key) in xs)
    case JStr(s) => Ok(Contains(s, key))
    case _ => Err(TypeError)
  }

  /** `j == n` for an int literal `n` (`True == 1` and `False == 0` in Python). */
  predicate EqualsInt(j: Json, n: int) {
    || j == JInt(n)
    || (j == JBool(true) && n == 1)
    || (j == JBool(false) && n == 0)
  }

  /** `isinstance(j, str)` */
  predicate IsStr(j: Json) {
    j.JStr?
  }

  /**
   * The text `str(j)` gives inside an f-string, for scalars. A list or dict is rendered by
   * Python's `repr`, which this model does not spell out: it gives a fixed marker instead.
   */
  function Show(j: Json): string {
    match j
    case JNull => "None"
    case JBool(b) => if b then "True" else "False"
    case JInt(i) => IntToString(i)
    case JStr(s) => s
    case JArr(_) => "<list>"
    case JObj(_) => "<dict>"
  }
}

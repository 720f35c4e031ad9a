/**
 * What a request handler sees and returns: decoded JSON values, the shape of
 * a request body, the requesting user, and a response that is either a
 * success value or an HTTP status code.
 */
module Http {
  import opened Wrappers
  import opened Text

  /** A JSON scalar as `json.loads` decodes it: `null`, a boolean, an integer or a string. */
  datatype Json = JNull | JBool(b: bool) | JInt(i: int) | JStr(s: string)

  /** Python truthiness of a decoded JSON value (`if value:`). */
  predicate Truthy(j: Json) {
    match j
    case JNull => false
    case JBool(b) => b
    case JInt(i) => i != 0
    case JStr(s) => s != ""
  }

  /** `str(value)` */
  function PyStr(j: Json): string {
    match j
    case JNull => "None"
    case JBool(b) => if b then "True" else "False"
    case JInt(i) => IntToDecimal(i)
    case JStr(s) => s
  }

  /**
   * What a nullable text column holds after the value is assigned and saved:
   * `null` stays NULL, a string is kept, any other value is stored as its `str()`.
   */
  function StoredText(j: Json): (r: Option<string>)
    ensures r.None? <==> j.JNull?
    ensures j.JStr? ==> r == Some(j.s)
  {
    if j.JNull? then None else Some(PyStr(j))
  }

  /** `int(value)`; `None` where Python raises TypeError or ValueError. */
  function PyInt(j: Json): (r: Option<int>)
    ensures j.JInt? ==> r == Some(j.i)
    ensures j.JNull? ==> r.None?
  {
    match j
    case JNull => None
    case JBool(b) => Some(if b then 1 else 0)
    case JInt(i) => Some(i)
    case JStr(s) => ParseInt(s)
  }

  /** When `str(value).isdigit()` holds, `int(value)` is the number those digits spell. */
  lemma DigitTextInt(j: Json)
    requires IsDigits(PyStr(j))
    ensures PyInt(j) == Some(DigitsValue(PyStr(j)) as int)
  {
    match j
    case JStr(s) =>
      StripKeeps(s);
    case JInt(i) =>
      if i < 0 {
        NegativeNotDigits(i);
        assert false;
      } else {
        DecimalValue(i);
      }
    case _ =>
  }

  lemma NegativeNotDigits(i: int)
    requires i < 0
    ensures !IsDigits(IntToDecimal(i))
  {
    assert IntToDecimal(i)[0] == '-';
  }

  type JsonObject = map<string, Json>

  /**
   * A request body: empty, bytes that are not UTF-8 (so `json.loads` raises
   * UnicodeDecodeError, not JSONDecodeError), UTF-8 text that is not JSON,
   * JSON that is not an object (so `data.get` raises AttributeError), or a
   * JSON object.
   */
  datatype Body = Empty | Undecodable | Malformed | NotAnObject | Object(fields: JsonObject)

  /** `json.loads(request.body or "{}")` as a dictionary; `None` when it raises or is not an object. */
  function ObjectOrEmpty(body: Body): (data: Option<JsonObject>)
    ensures body.Empty? ==> data == Some(map[])
    ensures body.Object? ==> data == Some(body.fields)
    ensures data.None? <==> body.Undecodable? || body.Malformed? || body.NotAnObject?
  {
    match body
    case Empty => Some(map[])
    case Object(fields) => Some(fields)
    case _ => None
  }

  /** `data.get(key)` */
  function Get(data: JsonObject, key: string): Option<Json> {
    if key in data then Some(data[key]) else None
  }

  /** `data.get(key, default).strip()`; `None` where the value is not a string and `.strip()` raises. */
  function GetStripped(data: JsonObject, key: string, default: string): (r: Option<string>)
    ensures key !in data ==> r == Some(Strip(default))
    ensures key in data ==> (r.Some? <==> data[key].JStr?)
  {
    if key !in data then Some(Strip(default))
    else if data[key].JStr? then Some(Strip(data[key].s))
    else None
  }

  type UserId = nat

  /** `request.user`: the anonymous user, or a signed-in account with its `is_staff` flag. */
  datatype Requester = Anonymous | Member(id: UserId, isStaff: bool)

  /**
   * The gate `request.user != obj.user and not request.user.is_staff` negated:
   * only the owner or a staff member may change a record.  The anonymous user
   * is neither (it never equals a stored owner and is not staff).
   */
  predicate MayModify(who: Requester, owner: Option<UserId>) {
    who.Member? && (owner == Some(who.id) || who.isStaff)
  }

  /** A handler's answer: a success value, or an error status code. */
  datatype Response<T> = Ok(value: T) | Error(status: nat)

  const LoginRedirect: nat := 302
  const BadRequest: nat := 400
  const Unauthorized: nat := 401
  const Forbidden: nat := 403
  const NotFound: nat := 404
  const MethodNotAllowed: nat := 405
  const ServerError: nat := 500
}

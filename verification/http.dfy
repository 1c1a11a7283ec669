/** JSON response bodies and the two envelope helpers of `utils/http.js`. */
module Http {
  import opened Base

  /** A JSON value as `res.json` serializes it. Object members keep their
      insertion order. */
  datatype Json =
    | JNull
    | JBool(b: bool)
    | JNum(n: int)
    | JStr(s: string)
    | JArr(items: seq<Json>)
    | JObj(members: seq<(string, Json)>)

  /** JavaScript truthiness of a parsed JSON value. */
  predicate JsonTruthy(j: Json) {
    match j
    case JNull => false
    case JBool(b) => b
    case JNum(n) => n != 0
    case JStr(s) => |s| > 0
    case JArr(_) => true
    case JObj(_) => true
  }

  /** The value of the first member named `key`, if `j` is an object that has one. */
  function Get(j: Json, key: string): (r: Option<Json>)
    ensures r.Some? ==> j.JObj? && exists i :: 0 <= i < |j.members| && j.members[i] == (key, r.value)
    ensures r.None? ==> !j.JObj? || forall i :: 0 <= i < |j.members| ==> j.members[i].0 != key
    decreases if j.JObj? then |j.members| else 0
  {
    if !j.JObj? || |j.members| == 0 then None
    else if j.members[0].0 == key then Some(j.members[0].1)
    else
      match Get(JObj(j.members[1..]), key)
      case None => None
      case Some(v) => assert j.members[1..][0] == j.members[1]; Some(v)
  }

  predicate Has(j: Json, key: string) {
    Get(j, key).Some?
  }

  datatype Response = Response(status: int, body: Json)

  /** `createHttpResponse(res, status, data, message)`: `success` says whether
      the status is 2xx, and the `message` member is present only for a
      truthy message. */
  function CreateHttpResponse(status: int, data: Json, message: Json): (r: Response)
    ensures r.status == status
    ensures Get(r.body, "success") == Some(JBool(200 <= status < 300))
    ensures Get(r.body, "data") == Some(data)
    ensures Has(r.body, "message") <==> JsonTruthy(message)
    ensures JsonTruthy(message) ==> Get(r.body, "message") == Some(message)
  {
    var base := [("success", JBool(200 <= status < 300)), ("data", data)];
    var withMessage := base + [("message", message)];
    GetAt(withMessage, 2);
    GetAbsent(base, "message");
    Response(status, JObj(if JsonTruthy(message) then withMessage else base))
  }

  /** `createErrorResponse(res, status, message, details)`: never successful;
      the message sits under `error`, with `details` only when truthy. */
  function CreateErrorResponse(status: int, message: string, details: Json): (r: Response)
    ensures r.status == status
    ensures Get(r.body, "success") == Some(JBool(false))
    ensures Get(r.body, "error").Some?
    ensures Get(Get(r.body, "error").value, "message") == Some(JStr(message))
    ensures Has(Get(r.body, "error").value, "details") <==> JsonTruthy(details)
    ensures JsonTruthy(details) ==> Get(Get(r.body, "error").value, "details") == Some(details)
  {
    var inner := [("message", JStr(message))];
    GetAt(inner + [("details", details)], 1);
    GetAbsent(inner, "details");
    var err := JObj(if JsonTruthy(details) then inner + [("details", details)] else inner);
    Response(status, JObj([("success", JBool(false)), ("error", err)]))
  }

  /** A plain `res.status(status).json({...})` body with `success` first. */
  function Plain(status: int, success: bool, members: seq<(string, Json)>): (r: Response)
    ensures r.status == status
    ensures Get(r.body, "success") == Some(JBool(success))
    ensures r.body.JObj? && r.body.members == [("success", JBool(success))] + members
  {
    var all := [("success", JBool(success))] + members;
    GetAt(all, 0);
    Response(status, JObj(all))
  }

  /** Member `k` of a plain body is found under its key when no earlier
      member has that key. */
  lemma PlainGet(status: int, success: bool, members: seq<(string, Json)>, k: nat)
    requires k < |members| && members[k].0 != "success"
    requires forall j :: 0 <= j < k ==> members[j].0 != members[k].0
    ensures Get(Plain(status, success, members).body, members[k].0) == Some(members[k].1)
  {
    var all := [("success", JBool(success))] + members;
    assert all[k + 1] == members[k];
    forall j | 0 <= j < k + 1
      ensures all[j].0 != all[k + 1].0
    {
      if j > 0 { assert all[j] == members[j - 1]; }
    }
    GetAt(all, k + 1);
  }

  /** `Get` finds the first member with a key. */
  lemma {:induction false} GetAt(members: seq<(string, Json)>, i: nat)
    requires i < |members|
    requires forall j :: 0 <= j < i ==> members[j].0 != members[i].0
    ensures Get(JObj(members), members[i].0) == Some(members[i].1)
    decreases i
  {
    if i > 0 {
      GetAt(members[1..], i - 1);
      assert JObj(members[1..]).members == members[1..];
    }
  }

  /** `Get` finds nothing when no member has the key. */
  lemma GetAbsent(members: seq<(string, Json)>, key: string)
    requires forall i :: 0 <= i < |members| ==> members[i].0 != key
    ensures Get(JObj(members), key).None?
  {
  }

  /** Error responses are never reported as successful, whatever the status. */
  lemma ErrorResponseNeverSuccess(status: int, message: string, details: Json)
    requires 200 <= status < 300
    ensures Get(CreateErrorResponse(status, message, details).body, "success")
      != Get(CreateHttpResponse(status, JNull, JNull).body, "success")
  {
  }
}

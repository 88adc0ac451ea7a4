/**
  JSON values as the browser's `JSON.parse` and Python's `json.loads` produce
  them, plus JavaScript's `undefined` for absent properties.
 */
module Json {
  import opened Wrappers

  /**
    An object's members are listed in the order the object enumerates them
    (`Object.values`, `dict.items()`). For a browser object that order puts
    integer-like names first, in ascending numeric order, and the other
    names after them in insertion order; for a Python dict it is insertion
    order. The `parse` parameters the model takes are assumed to list members
    that way; the model does not reorder them itself.
   */
  datatype Json =
    | JNull
    | JBool(b: bool)
    | JNum(n: real)
    | JStr(str: string)
    | JArr(items: seq<Json>)
    | JObj(fields: seq<(string, Json)>)

  /** A JavaScript value: `undefined` or a JSON value. */
  datatype JsVal = Undefined | Def(json: Json)

  /** JavaScript truthiness of a JSON value. */
  predicate JsTruthy(j: Json) {
    match j
    case JNull => false
    case JBool(b) => b
    case JNum(n) => n != 0.0
    case JStr(s) => s != ""
    case JArr(_) => true
    case JObj(_) => true
  }

  predicate Truthy(v: JsVal) {
    v.Def? && JsTruthy(v.json)
  }

  /** Python truthiness of a JSON value (empty containers are false). */
  predicate PyTruthy(j: Json) {
    match j
    case JNull => false
    case JBool(b) => b
    case JNum(n) => n != 0.0
    case JStr(s) => s != ""
    case JArr(items) => |items| > 0
    case JObj(fields) => |fields| > 0
  }

  /** The value of the first member named `k`. */
  function Get(fields: seq<(string, Json)>, k: string): (r: Option<Json>)
    ensures r.Some? ==> exists i :: 0 <= i < |fields| && fields[i] == (k, r.value)
    ensures r.None? ==> forall i :: 0 <= i < |fields| ==> fields[i].0 != k
    decreases |fields|
  {
    if |fields| == 0 then None
    else if fields[0].0 == k then Some(fields[0].1)
    else
      var r := Get(fields[1..], k);
      assert r.Some? ==> exists i :: 0 <= i < |fields[1..]| && fields[1..][i] == (k, r.value);
      r
  }
}

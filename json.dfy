/** JSON values as the tool sees them after `r.json()`, with the parts of
    Python's semantics the script relies on: truthiness, `dict.get`, `in` on
    a dict, `==` against an integer, and the exceptions its duck-typed code
    can raise on an unexpected shape. */
module Json {

  datatype Option<+T> = None | Some(value: T)

  /** The exceptions the script can raise on a payload of an unexpected shape. */
  datatype PyError =
    | TypeError      // `in`, `for`, `>` or hashing applied to a value that does not support it
    | AttributeError // `.get` or `.items()` called on something that is not a dict

  datatype Result<+T> = Ok(value: T) | Err(error: PyError) {
    predicate IsFailure() { Err? }
    function PropagateFailure<U>(): Result<U>
      requires Err?
    {
      Err(error)
    }
    function Extract(): T
      requires Ok?
    {
      value
    }
  }

  /** A decoded JSON value. An object keeps its members in the order the
      modem sent them, because a Python dict iterates in insertion order. */
  datatype Json =
    | JNull
    | JBool(b: bool)
    | JInt(i: int)
    | JStr(s: string)
    | JArr(items: seq<Json>)
    | JObj(fields: seq<(string, Json)>)

  type Fields = seq<(string, Json)>

  /** A Python dict never holds a key twice. */
  predicate UniqueKeys(fields: Fields)
  {
    forall i, j :: 0 <= i < j < |fields| ==> fields[i].0 != fields[j].0
  }

  /** Python `bool(v)`: None, False, 0, "", [] and {} are falsy. */
  predicate Truthy(v: Json)
  {
    match v
    case JNull => false
    case JBool(b) => b
    case JInt(i) => i != 0
    case JStr(s) => s != []
    case JArr(items) => items != []
    case JObj(fields) => fields != []
  }

  /** Python `key in d` for a dict `d`. */
  predicate Has(fields: Fields, key: string)
  {
    exists i :: 0 <= i < |fields| && fields[i].0 == key
  }

  /** The position of `key` in the object, if it is there. */
  function IndexOf(fields: Fields, key: string): (r: Option<nat>)
    ensures r.None? <==> !Has(fields, key)
    ensures r.Some? ==> r.value < |fields| && fields[r.value].0 == key
    ensures r.Some? ==> forall j :: 0 <= j < r.value ==> fields[j].0 != key
  {
    if fields == [] then None
    else if fields[0].0 == key then Some(0)
    else
      match IndexOf(fields[1..], key)
      case None => None
      case Some(k) => Some(k + 1)
  }

  /** Python `d.get(key, default)`: the value stored under `key`, even a
      null one, or `default` when the key is absent. */
  function GetOr(fields: Fields, key: string, default: Json): (r: Json)
    ensures !Has(fields, key) ==> r == default
    ensures UniqueKeys(fields) ==>
      forall i :: 0 <= i < |fields| && fields[i].0 == key ==> r == fields[i].1
  {
    match IndexOf(fields, key)
    case None => default
    case Some(k) => fields[k].1
  }

  /** Python `d.get(key)` with its implicit default None. */
  function Get(fields: Fields, key: string): Json
  {
    GetOr(fields, key, JNull)
  }

  /** Python `v == 0` for a JSON value: `False == 0` holds in Python. */
  predicate EqualsInt(v: Json, n: int)
  {
    v == JInt(n) || (v.JBool? && (if v.b then 1 else 0) == n)
  }

  /** Python `for x in v`: the elements a `for` loop visits, or the TypeError
      it raises. Iterating a dict visits its keys, a string its characters. */
  function Iterate(v: Json): (r: Result<seq<Json>>)
    ensures v.JArr? ==> r == Ok(v.items)
    ensures r.Ok? && v.JObj? ==> |r.value| == |v.fields|
  {
    match v
    case JNull => Err(TypeError)
    case JBool(_) => Err(TypeError)
    case JInt(_) => Err(TypeError)
    case JStr(s) => Ok(seq(|s|, i requires 0 <= i < |s| => JStr([s[i]])))
    case JArr(items) => Ok(items)
    case JObj(fields) => Ok(seq(|fields|, i requires 0 <= i < |fields| => JStr(fields[i].0)))
  }

  /** Python `needle in v` for the right-hand operands the script meets:
      a key test on a dict, membership in a list, a substring test on a
      string; anything else raises TypeError. */
  function Contains(v: Json, needle: string): (r: Result<bool>)
    ensures v.JObj? ==> r == Ok(Has(v.fields, needle))
    ensures v.JArr? ==> r == Ok(JStr(needle) in v.items)
  {
    match v
    case JObj(fields) => Ok(Has(fields, needle))
    case JArr(items) => Ok(JStr(needle) in items)
    case JStr(s) => Ok(IsSubstring(needle, s))
    case _ => Err(TypeError)
  }

  /** Python `needle in s` on two strings. */
  predicate IsSubstring(needle: string, s: string)
    decreases |s|
  {
    needle <= s || (s != [] && IsSubstring(needle, s[1..]))
  }

  /** A reply of `send_request`: None when the request failed, else the
      decoded JSON-RPC reply object. */
  type Reply = Option<Fields>

  /** `not result or "error" in result` (alcatelik40_smsctl.py:86, 92, 106, 119). */
  predicate ReplyFailed(reply: Reply)
  {
    reply.None? || reply.value == [] || Has(reply.value, "error")
  }

  /** `bool(result and "error" not in result)` (alcatelik40_smsctl.py:254, 264). */
  predicate ReplyAccepted(reply: Reply)
    ensures ReplyAccepted(reply) <==> !ReplyFailed(reply)
  {
    reply.Some? && reply.value != [] && !Has(reply.value, "error")
  }
}

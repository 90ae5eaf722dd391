/** Decoded JSON values as the scripts see them after `response.json()`,
    Python's truthiness on them, the ordered "first field present" fallback
    the structure-generation scripts use against schema drift, and the
    outcome of one HTTP request, which the model receives as an input. */
module Json {
  import opened Wrappers

  datatype Value =
    | Null
    | Bool(b: bool)
    | Int(i: int)
    | Real(r: real)
    | Str(s: string)
    | Arr(items: seq<Value>)
    | Obj(fields: map<string, Value>)

  /** Python's truth value of a decoded JSON value. */
  predicate Truthy(v: Value) {
    match v
    case Null => false
    case Bool(b) => b
    case Int(i) => i != 0
    case Real(r) => r != 0.0
    case Str(s) => s != []
    case Arr(items) => items != []
    case Obj(fields) => fields != map[]
  }

  /** `body.get(key)` is truthy. */
  predicate Provides(body: map<string, Value>, key: string) {
    key in body && Truthy(body[key])
  }

  /** `body.get(k0) or body.get(k1) or ...` as far as an `if` on the result
      can tell: the value of the first key, in the given order, whose value
      is truthy, or None when no key has a truthy value. */
  function FirstTruthy(body: map<string, Value>, keys: seq<string>): (r: Option<Value>)
    ensures r.None? <==> forall i | 0 <= i < |keys| :: !Provides(body, keys[i])
    ensures r.Some? ==> exists i | 0 <= i < |keys| ::
      Provides(body, keys[i]) && body[keys[i]] == r.value
      && forall j | 0 <= j < i :: !Provides(body, keys[j])
  {
    if keys == [] then None
    else if Provides(body, keys[0]) then Some(body[keys[0]])
    else
      var r := FirstTruthy(body, keys[1..]);
      assert forall i | 1 <= i < |keys| :: keys[i] == keys[1..][i - 1];
      if r.Some? then
        var i :| 0 <= i < |keys[1..]| && Provides(body, keys[1..][i]) && body[keys[1..][i]] == r.value
          && forall j | 0 <= j < i :: !Provides(body, keys[1..][j]);
        assert Provides(body, keys[i + 1]) && body[keys[i + 1]] == r.value;
        assert forall j | 0 <= j < i + 1 :: !Provides(body, keys[j]) by {
          forall j | 0 <= j < i + 1 ensures !Provides(body, keys[j]) {
            if j > 0 { assert keys[j] == keys[1..][j - 1]; }
          }
        }
        r
      else r
  }

  /** What one HTTP request produced: a response with its status code,
      decoded body and raw text, or an exception raised by the client
      (connection failure, timeout). A body that is not JSON is a `Raised`
      reply only where the script calls `.json()` on it; a branch that
      never decodes the body (a 429 or other non-200 status in the NVIDIA
      scripts) sees a `Response` with that status whatever the body. */
  datatype Reply =
    | Response(status: int, body: Value, text: string)
    | Raised(message: string)

  /** The statuses for which `response.raise_for_status()` raises. */
  predicate IsHttpError(status: int) {
    400 <= status < 600
  }
}

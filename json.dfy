/** Decoded JSON values as the Python code sees them, and the Python operations applied to them. */
module JsonValue {
  import opened Wrappers
  import opened Dicts
  import opened Strings

  /** `None`, `bool`, `int`, `str`, `list` and `dict` (keys in insertion order, none repeated). */
  datatype Json =
    | JNull
    | JBool(b: bool)
    | JInt(i: int)
    | JStr(s: string)
    | JList(items: seq<Json>)
    | JObj(fields: Dict<Json>)

  /** The Python exceptions the modelled code raises or lets escape. */
  datatype PyError =
    | ValueError(message: string)
    | TypeError
    | AttributeError
    | IndexError
    | KeyError(key: string)
    | StopIteration

  /** Python's `bool(v)`: `None`, `False`, `0`, `""`, `[]` and `{}` are false. */
  predicate Truthy(v: Json)
  {
    match v
    case JNull => false
    case JBool(b) => b
    case JInt(i) => i != 0
    case JStr(s) => s != ""
    case JList(items) => items != []
    case JObj(fields) => fields != []
  }

  /** `a or b`: `a` itself when it is true, otherwise `b`. */
  function Or(a: Json, b: Json): Json
  {
    if Truthy(a) then a else b
  }

  /** What `for x in v` visits: a list's items, a dict's keys, a string's characters. */
  function Iterate(v: Json): Result<seq<Json>, PyError>
  {
    match v
    case JList(items) => Ok(items)
    case JObj(fields) => Ok(seq(|fields|, i requires 0 <= i < |fields| => JStr(fields[i].0)))
    case JStr(s) => Ok(seq(|s|, i requires 0 <= i < |s| => JStr([s[i]])))
    case _ => Err(TypeError)
  }

  /** `k in v` with a string `k`: a dict's keys, a list's items, a string's substrings. */
  function Contains(v: Json, k: string): Result<bool, PyError>
  {
    match v
    case JObj(fields) => Ok(k in Keys(fields))
    case JList(items) => Ok(JStr(k) in items)
    case JStr(s) => Ok(IsSubstring(k, s))
    case _ => Err(TypeError)
  }

  /** `v[k]` with a string key: a dict lookup; a missing key raises `KeyError`. */
  function Subscript(v: Json, k: string): Result<Json, PyError>
  {
    match v
    case JObj(fields) =>
      (match Get(fields, k)
       case Some(x) => Ok(x)
       case None => Err(KeyError(k)))
    case _ => Err(TypeError)
  }

  /** `v.get(k, default)`: only dicts have `get`. */
  function GetOrDefault(v: Json, k: string, default: Json): Result<Json, PyError>
  {
    match v
    case JObj(fields) => Ok(Get(fields, k).GetOr(default))
    case _ => Err(AttributeError)
  }

  /** A result list with `prefix` in front, or the same error. */
  function Prepend<T>(prefix: seq<T>, r: Result<seq<T>, PyError>): Result<seq<T>, PyError>
  {
    match r
    case Err(e) => Err(e)
    case Ok(rest) => Ok(prefix + rest)
  }

  lemma PrependNothing<T>(r: Result<seq<T>, PyError>)
    ensures Prepend([], r) == r
  {
    if r.Ok? {
      assert [] + r.value == r.value;
    }
  }

  lemma PrependTwice<T>(a: seq<T>, b: seq<T>, r: Result<seq<T>, PyError>)
    ensures Prepend(a, Prepend(b, r)) == Prepend(a + b, r)
  {
    if r.Ok? {
      assert a + (b + r.value) == (a + b) + r.value;
    }
  }
}

/** Parsed JSON values as the Python code sees them, the exceptions the
    checked code can raise, and the few built-in operations whose behaviour
    on unexpected types decides what the validators do: `in`, indexing by a
    key, `dict.get`, truthiness, `==`, hashing and `str()`. */
module PyValues {
  import opened Text

  /** A value produced by `json.load`. A dict is kept as its (key, value)
      pairs in insertion order. The type admits a repeated key, which
      `json.load` never produces (for a repeated key in the text it keeps
      the last value, while `Lookup` here finds the first pair). */
  datatype Json =
    | JNull
    | JBool(b: bool)
    | JInt(i: int)
    | JStr(s: string)
    | JArr(items: seq<Json>)
    | JObj(fields: seq<(string, Json)>)

  type Dict = seq<(string, Json)>

  datatype Option<T> = None | Some(value: T)

  /** The exceptions the modelled code lets escape. */
  datatype PyError =
    | TypeError
    | AttributeError
    | KeyError(key: string)
    | ValueError(msg: string)
    | FileNotFoundError(msg: string)
    | LoadFailed(msg: string)  // any other failure of reading or parsing a JSON file

  /** A Python call either returns a value or raises. */
  datatype Outcome<T> = Ok(value: T) | Raise(error: PyError) {
    predicate IsFailure() { Raise? }

    function PropagateFailure<U>(): Outcome<U>
      requires Raise?
    {
      Raise(error)
    }

    function Extract(): T
      requires Ok?
    {
      value
    }
  }

  /** What reading and parsing a JSON file gives: the value, a missing file,
      or any other failure (unreadable file, invalid JSON) with its text. */
  datatype Loaded = Parsed(value: Json) | Missing | Unreadable(reason: string)

  /** `type(v).__name__`. */
  function TypeName(v: Json): string
  {
    match v
    case JNull => "NoneType"
    case JBool(_) => "bool"
    case JInt(_) => "int"
    case JStr(_) => "str"
    case JArr(_) => "list"
    case JObj(_) => "dict"
  }

  predicate HasKey(d: Dict, key: string)
  {
    exists k | 0 <= k < |d| :: d[k].0 == key
  }

  /** `d.get(key)`: the value stored under `key`, if any. */
  function Lookup(d: Dict, key: string): (r: Option<Json>)
    ensures r.Some? <==> HasKey(d, key)
    ensures r.Some? ==> exists k | 0 <= k < |d| :: d[k] == (key, r.value)
  {
    if d == [] then None
    else if d[0].0 == key then Some(d[0].1)
    else
      var r := Lookup(d[1..], key);
      assert forall k | 0 <= k < |d[1..]| :: d[1..][k] == d[k + 1];
      assert HasKey(d, key) ==> HasKey(d[1..], key);
      r
  }

  /** `d[key]` for a key the dict holds. */
  function Field(d: Dict, key: string): (v: Json)
    requires HasKey(d, key)
    ensures exists k | 0 <= k < |d| :: d[k] == (key, v)
  {
    Lookup(d, key).value
  }

  /** `d.get(key, default)`. */
  function GetOr(d: Dict, key: string, default: Json): Json
  {
    match Lookup(d, key)
    case Some(v) => v
    case None => default
  }

  /** `key in container` for a `str` key: a dict tests its keys, a list its
      elements, a str its substrings; any other value raises TypeError. */
  function Contains(container: Json, key: string): Outcome<bool>
  {
    match container
    case JObj(d) => Ok(HasKey(d, key))
    case JArr(items) => Ok(JStr(key) in items)
    case JStr(s) => Ok(IsSubstring(key, s))
    case _ => Raise(TypeError)
  }

  /** `container[key]` for a `str` key: only a dict can be indexed so. */
  function GetItem(container: Json, key: string): Outcome<Json>
  {
    match container
    case JObj(d) =>
      (match Lookup(d, key)
       case Some(v) => Ok(v)
       case None => Raise(KeyError(key)))
    case _ => Raise(TypeError)
  }

  /** `bool(v)`. */
  predicate Truthy(v: Json)
  {
    match v
    case JNull => false
    case JBool(b) => b
    case JInt(i) => i != 0
    case JStr(s) => s != ""
    case JArr(items) => items != []
    case JObj(d) => d != []
  }

  /** Lists and dicts cannot be set members or dict keys. */
  predicate Hashable(v: Json) { !v.JArr? && !v.JObj? }

  /** The identity a hashable value has as a set member or dict key:
      `True` and `1` (and `False` and `0`) are the same key. */
  function HashKey(v: Json): Json
  {
    match v
    case JBool(b) => JInt(if b then 1 else 0)
    case _ => v
  }

  function BoolInt(b: bool): int { if b then 1 else 0 }

  /** Python's `==` on two JSON values (bool compares equal to the matching
      int; dicts compare by keys and values, ignoring insertion order). */
  predicate PyEq(a: Json, b: Json)
  {
    match a
    case JNull => b.JNull?
    case JBool(x) => (b.JBool? && b.b == x) || (b.JInt? && b.i == BoolInt(x))
    case JInt(x) => (b.JInt? && b.i == x) || (b.JBool? && BoolInt(b.b) == x)
    case JStr(x) => b.JStr? && b.s == x
    case JArr(xs) =>
      b.JArr? && |xs| == |b.items|
      && forall k | 0 <= k < |xs| :: PyEq(xs[k], b.items[k])
    case JObj(xd) =>
      b.JObj? && |xd| == |b.fields|
      && (forall k | 0 <= k < |xd| :: HasKey(b.fields, xd[k].0))
      && (forall k | 0 <= k < |xd| :: PyEq(xd[k].1, GetOr(b.fields, xd[k].0, JNull)))
  }

  /** `x in lst` for a list: some element compares equal. */
  predicate PyIn(x: Json, lst: seq<Json>)
  {
    exists k | 0 <= k < |lst| :: PyEq(lst[k], x)
  }

  /** `repr(v)`. Strings are shown in single quotes; the escaping Python
      applies to quotes, backslashes and control characters is not modelled. */
  function PyRepr(v: Json): string
  {
    match v
    case JNull => "None"
    case JBool(b) => if b then "True" else "False"
    case JInt(i) => IntToString(i)
    case JStr(s) => "'" + s + "'"
    case JArr(xs) =>
      "[" + Join(seq(|xs|, k requires 0 <= k < |xs| => PyRepr(xs[k])), ", ") + "]"
    case JObj(d) =>
      "{" + Join(seq(|d|, k requires 0 <= k < |d| => "'" + d[k].0 + "': " + PyRepr(d[k].1)), ", ") + "}"
  }

  /** `str(v)`, which is what an f-string inserts. */
  function PyStr(v: Json): string
  {
    if v.JStr? then v.s else PyRepr(v)
  }
}

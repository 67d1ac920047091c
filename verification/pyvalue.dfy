/** Values decoded from JSON, together with the handful of Python operations the
    modelled sources apply to them: truthiness, `str()`/`repr()`, `key in v`,
    `v[key]`, `v[0]`, `v.get(key, default)`, and the exceptions those raise. */
module PyValue {
  import opened Wrappers
  import opened Strings

  /** A decoded JSON value. Objects keep their fields in insertion order, which
      Python's `dict` (and so its `repr`) preserves. */
  datatype Json =
    | JNull
    | JBool(b: bool)
    | JInt(i: int)
    | JStr(s: string)
    | JArr(items: seq<Json>)
    | JObj(fields: seq<(string, Json)>)

  /** The exceptions the modelled code can raise or catch. */
  datatype PyError =
    | TypeError(message: string)
    | AttributeError(message: string)
    | KeyError(key: Json)
    | IndexError(message: string)
    | ValueError(message: string)
      /** `json.loads` or `request.json()` rejected the text. */
    | DecodeError(message: string)
      /** The HTTP client could not complete the exchange. */
    | ConnectionError(message: string)

  /** `type(v).__name__` */
  function TypeName(v: Json): string {
    match v
    case JNull => "NoneType"
    case JBool(_) => "bool"
    case JInt(_) => "int"
    case JStr(_) => "str"
    case JArr(_) => "list"
    case JObj(_) => "dict"
  }

  /** `bool(v)` */
  predicate Truthy(v: Json) {
    match v
    case JNull => false
    case JBool(b) => b
    case JInt(i) => i != 0
    case JStr(s) => |s| > 0
    case JArr(items) => |items| > 0
    case JObj(fields) => |fields| > 0
  }

  function Quote(s: string): string {
    "'" + s + "'"
  }

  /** `repr(v)`: Python's literal syntax for the value. */
  function Repr(v: Json): string
    decreases v
  {
    match v
    case JNull => "None"
    case JBool(b) => if b then "True" else "False"
    case JInt(i) => IntToString(i)
    case JStr(s) => Quote(s)
    case JArr(items) =>
      "[" + Join(seq(|items|, k requires 0 <= k < |items| => Repr(items[k])), ", ") + "]"
    case JObj(fields) =>
      "{" + Join(seq(|fields|, k requires 0 <= k < |fields| =>
                       assert fields[k].1 < fields[k];
                       Quote(fields[k].0) + ": " + Repr(fields[k].1)), ", ") + "}"
  }

  /** An empty dict prints as `{}`. */
  lemma ReprEmptyDict()
    ensures Repr(JObj([])) == "{}"
  {
    var empty: seq<string> := [];
    assert Join(empty, ", ") == "";
  }

  /** `str(v)`: a string is itself, anything else its `repr`. */
  function Str(v: Json): string {
    if v.JStr? then v.s else Repr(v)
  }

  /** `str(e)` for a caught exception. */
  function ErrorText(e: PyError): string {
    match e
    case KeyError(k) => Repr(k)
    case TypeError(m) => m
    case AttributeError(m) => m
    case IndexError(m) => m
    case ValueError(m) => m
    case DecodeError(m) => m
    case ConnectionError(m) => m
  }

  /** Index of the first field named `key`, at or after `from`. */
  function FindKey(fields: seq<(string, Json)>, key: string, from: nat): (r: Option<nat>)
    requires from <= |fields|
    ensures r.Some? ==> from <= r.value < |fields| && fields[r.value].0 == key
    ensures r.None? ==> forall j :: from <= j < |fields| ==> fields[j].0 != key
    decreases |fields| - from
  {
    if from == |fields| then None
    else if fields[from].0 == key then Some(from)
    else FindKey(fields, key, from + 1)
  }

  /** The field found for `key` is its first occurrence. */
  lemma {:induction false} FindKeyFirst(fields: seq<(string, Json)>, key: string, from: nat, k: nat)
    requires from <= k < |fields| && fields[k].0 == key
    requires forall j :: from <= j < k ==> fields[j].0 != key
    ensures FindKey(fields, key, from) == Some(k)
    decreases k - from
  {
    if from < k {
      FindKeyFirst(fields, key, from + 1, k);
    }
  }

  /** `isinstance(v, dict) and key in v` */
  predicate HasKey(v: Json, key: string) {
    v.JObj? && FindKey(v.fields, key, 0).Some?
  }

  /** `v[key]` for a dict known to hold `key`. */
  function Field(v: Json, key: string): Json
    requires HasKey(v, key)
  {
    v.fields[FindKey(v.fields, key, 0).value].1
  }

  function NoAttribute(v: Json, attribute: string): PyError {
    AttributeError(Quote(TypeName(v)) + " object has no attribute " + Quote(attribute))
  }

  /** `key in v` for a string `key`: dict membership, list membership or
      substring test, and a `TypeError` for values that are not containers. */
  function Contains(v: Json, key: string): Result<bool, PyError> {
    match v
    case JObj(_) => Success(HasKey(v, key))
    case JArr(items) => Success(JStr(key) in items)
    case JStr(s) => Success(IsInfix(key, s))
    case _ => Failure(TypeError("argument of type " + Quote(TypeName(v)) + " is not iterable"))
  }

  /** `v[key]` for a string `key`. */
  function Subscript(v: Json, key: string): Result<Json, PyError> {
    match v
    case JObj(_) => if HasKey(v, key) then Success(Field(v, key)) else Failure(KeyError(JStr(key)))
    case JArr(_) => Failure(TypeError("list indices must be integers or slices, not str"))
    case JStr(_) => Failure(TypeError("string indices must be integers, not 'str'"))
    case _ => Failure(TypeError(Quote(TypeName(v)) + " object is not subscriptable"))
  }

  /** `v[0]` */
  function First(v: Json): Result<Json, PyError> {
    match v
    case JArr(items) => if |items| > 0 then Success(items[0]) else Failure(IndexError("list index out of range"))
    case JStr(s) => if |s| > 0 then Success(JStr([s[0]])) else Failure(IndexError("string index out of range"))
    case JObj(_) => Failure(KeyError(JInt(0)))
    case _ => Failure(TypeError(Quote(TypeName(v)) + " object is not subscriptable"))
  }

  /** The value under `key`, or `default` when there is none. */
  function FieldOr(v: Json, key: string, default: Json): Json {
    if HasKey(v, key) then Field(v, key) else default
  }

  /** `v.get(key, default)`: only dicts have `get`. */
  function Get(v: Json, key: string, default: Json): (r: Result<Json, PyError>)
    ensures v.JObj? && HasKey(v, key) ==> r == Success(Field(v, key))
    ensures v.JObj? && !HasKey(v, key) ==> r == Success(default)
    ensures v.JObj? ==> r == Success(FieldOr(v, key, default))
    ensures !v.JObj? ==> r == Failure(NoAttribute(v, "get"))
  {
    if !v.JObj? then Failure(NoAttribute(v, "get"))
    else if HasKey(v, key) then Success(Field(v, key))
    else Success(default)
  }
}

/** The part of Python's run-time behaviour that the gateway and the
    deployment configuration rely on: decoded JSON values, `dict.get`,
    truthiness, iteration that calls `.get` on every element, and the
    exceptions that escape a call. */
module PyValues {

  datatype Option<+T> = None | Some(value: T)

  /** An element of a Python `bytes` value. */
  type byte = x: int | 0 <= x < 256

  /** An exception that leaves a Python function uncaught.
      - ValueError: raised explicitly, with its message.
      - JsonDecodeError: `response.json()` found a body that is not JSON.
      - ShapeError: a TypeError, AttributeError or KeyError raised because a
        decoded value does not have the shape the code expects (`.get` on a
        list, iterating `None`, `str += None`, `**` on a list, ...).
      - ForeignError: an exception from the HTTP layer that is not a
        `requests.exceptions.RequestException`. */
  datatype Exception =
    | ValueError(message: string)
    | JsonDecodeError
    | ShapeError
    | ForeignError

  /** What a Python call does: return a value or raise. */
  datatype Outcome<+T> = Returned(value: T) | Raised(exception: Exception)

  /** A value produced by `json.loads`. JSON numbers are integers here. */
  datatype Json =
    | JNull
    | JBool(b: bool)
    | JInt(n: int)
    | JStr(s: string)
    | JArr(items: seq<Json>)
    | JObj(fields: map<string, Json>)

  /** `d.get(key, default)` */
  function Get(d: map<string, Json>, key: string, default: Json): Json
  {
    if key in d then d[key] else default
  }

  /** Python truthiness of a decoded JSON value. */
  predicate Truthy(v: Json)
  {
    match v
    case JNull => false
    case JBool(b) => b
    case JInt(n) => n != 0
    case JStr(s) => s != ""
    case JArr(items) => items != []
    case JObj(fields) => fields != map[]
  }

  /** The dicts that `for x in v: x.get(...)` visits, or None when that loop
      raises. Iterating a list visits its items, each of which must be a
      dict; iterating a dict or a string visits keys or one-character
      strings, on which `.get` raises unless there are none; `None`, a
      boolean or a number is not iterable. */
  function DictElems(v: Json): (r: Option<seq<map<string, Json>>>)
    ensures v.JArr? ==>
      (r.Some? <==> forall i :: 0 <= i < |v.items| ==> v.items[i].JObj?)
    ensures r.Some? && v.JArr? ==>
      |r.value| == |v.items| &&
      forall i :: 0 <= i < |v.items| ==> v.items[i] == JObj(r.value[i])
    ensures (v.JObj? || v.JStr?) ==> (r.Some? <==> !Truthy(v))
    ensures r.Some? && !v.JArr? ==> r.value == []
    ensures (v.JNull? || v.JBool? || v.JInt?) ==> r.None?
  {
    match v
    case JArr(items) =>
      if forall i :: 0 <= i < |items| ==> items[i].JObj?
      then Some(seq(|items|, i requires 0 <= i < |items| => items[i].fields))
      else None
    case JObj(fields) => if fields == map[] then Some([]) else None
    case JStr(s) => if s == "" then Some([]) else None
    case _ => None
  }

  /** A list of dicts, as `json.loads` would give it back. */
  function DictList(ds: seq<map<string, Json>>): (v: Json)
    ensures DictElems(v) == Some(ds)
  {
    var items := seq(|ds|, i requires 0 <= i < |ds| => JObj(ds[i]));
    assert DictElems(JArr(items)).Some?;
    assert DictElems(JArr(items)).value == ds;
    JArr(items)
  }
}

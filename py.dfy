/** Python values as they appear in the configuration file, in scraped items and
    in document metadata, with the parts of Python's semantics the core relies on:
    truthiness, `dict.get` and `str()`. */
module Py {
  import opened Base
  import opened Strings

  datatype Value =
    | Null
    | Bool(b: bool)
    | Int(i: int)
    | Float(r: real)
    | Str(s: string)
    | List(items: seq<Value>)
    | Dict(entries: map<string, Value>)

  /** A Python `dict` with string keys. */
  type Dict = map<string, Value>

  /** The Python exceptions the core lets escape.  `MissingConfigKeys` is the
      `KeyError` raised with the list of absent configuration keys. */
  datatype Error =
    | KeyError(key: string)
    | TypeError
    | ValueError
    | IndexError
    | AttributeError
    | FileNotFoundError(path: string)
    | JsonDecodeError
    | MissingConfigKeys(keys: seq<string>)

  /** `v[key]` for a string key: only a dict can be subscripted by a string;
      a dict without the key raises `KeyError`. */
  function Subscript(v: Value, key: string): (r: Result<Value, Error>)
    ensures r.Success? <==> v.Dict? && key in v.entries
    ensures r.Success? ==> r.value == v.entries[key]
    ensures r.Failure? ==> r.error == if v.Dict? then KeyError(key) else TypeError
  {
    match v
    case Dict(entries) => if key in entries then Success(entries[key]) else Failure(KeyError(key))
    case _ => Failure(TypeError)
  }

  /** `key in v` for a string key: dict keys, list elements, or substrings; any
      other value raises `TypeError`. */
  function Membership(key: string, v: Value): (r: Result<bool, Error>)
    ensures r.Failure? <==> !(v.Dict? || v.List? || v.Str?)
    ensures r.Failure? ==> r.error == TypeError
    ensures v.Dict? ==> r == Success(key in v.entries)
    ensures v.List? ==> r == Success(Str(key) in v.items)
  {
    match v
    case Dict(entries) => Success(key in entries)
    case List(items) => Success(Str(key) in items)
    case Str(s) => Success(Contains(s, key))
    case _ => Failure(TypeError)
  }

  /** `v[key] = x` for a string key, as the new value of `v`: only a dict
      supports item assignment by a string key. */
  function SetItem(v: Value, key: string, x: Value): (r: Result<Value, Error>)
    ensures r.Success? <==> v.Dict?
    ensures r.Success? ==> r.value.Dict? && key in r.value.entries && r.value.entries[key] == x
    ensures r.Success? ==> forall k :: k != key ==>
      (k in r.value.entries <==> k in v.entries) && (k in v.entries ==> r.value.entries[k] == v.entries[k])
    ensures r.Failure? ==> r.error == TypeError
  {
    match v
    case Dict(entries) => Success(Dict(entries[key := x]))
    case _ => Failure(TypeError)
  }

  /** `bool(v)`: `None`, `False`, zero and empty containers are false. */
  predicate Truthy(v: Value) {
    match v
    case Null => false
    case Bool(b) => b
    case Int(i) => i != 0
    case Float(r) => r != 0.0
    case Str(s) => s != ""
    case List(items) => items != []
    case Dict(entries) => entries != map[]
  }

  /** `d.get(key, default)`. */
  function Get(d: Dict, key: string, default: Value): (v: Value)
    ensures key in d ==> v == d[key]
    ensures key !in d ==> v == default
  {
    if key in d then d[key] else default
  }

  /** `str(v)`, as an f-string renders `v`.  The rendering of floats, lists and
      dicts is Python's `repr`, which is passed in as `repr`. */
  function Display(v: Value, repr: Value -> string): string {
    match v
    case Null => "None"
    case Bool(b) => if b then "True" else "False"
    case Int(i) => IntToString(i)
    case Str(s) => s
    case _ => repr(v)
  }

  /** `str(b)` for a Python bool. */
  function BoolToStr(b: bool): string {
    if b then "True" else "False"
  }

  /** A Python list of strings. */
  function StrList(ss: seq<string>): (v: Value)
    ensures v.List? && |v.items| == |ss|
    ensures forall i :: 0 <= i < |ss| ==> v.items[i] == Str(ss[i])
  {
    List(seq(|ss|, i requires 0 <= i < |ss| => Str(ss[i])))
  }

  /** A Python `str` or `None`. */
  function OptStr(s: Option<string>): Value {
    match s
    case None => Null
    case Some(x) => Str(x)
  }
}

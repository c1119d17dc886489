/** Values as the Python back end sees them after `request.get_json()`:
    JSON values decoded into Python objects, with Python's truthiness,
    `in` and `dict.get` on objects, and iteration. */
module Py {
  import opened Wrappers

  /** A decoded JSON value. `Null` is Python's `None`; an object keeps its
      members in the order they were written. */
  datatype Value =
    | Null
    | Bool(b: bool)
    | Int(i: int)
    | Float(r: real)
    | Str(s: string)
    | List(items: seq<Value>)
    | Dict(entries: seq<(string, Value)>)

  /** Python truthiness: `None`, `False`, zero, and empty strings and
      containers are falsy; everything else is truthy. */
  predicate Truthy(v: Value) {
    match v
    case Null => false
    case Bool(b) => b
    case Int(i) => i != 0
    case Float(r) => r != 0.0
    case Str(s) => |s| > 0
    case List(items) => |items| > 0
    case Dict(entries) => |entries| > 0
  }

  /** `k in d` for a decoded object. */
  predicate HasKey(d: seq<(string, Value)>, k: string) {
    exists i :: 0 <= i < |d| && d[i].0 == k
  }

  /** `d.get(k)`: the value of the last member named `k` (a later
      repetition overrides an earlier one), or `None` when there is none. */
  function Get(d: seq<(string, Value)>, k: string): (v: Value)
    ensures !HasKey(d, k) ==> v == Null
    ensures HasKey(d, k) ==> exists i :: 0 <= i < |d| && d[i] == (k, v)
    decreases |d|
  {
    if d == [] then Null
    else if d[|d| - 1].0 == k then d[|d| - 1].1
    else
      var v := Get(d[..|d| - 1], k);
      assert HasKey(d, k) ==> HasKey(d[..|d| - 1], k);
      v
  }

  /** `d.get(k, default)`: unlike `Get`, a member whose value is `null`
      yields `None`, and only a missing one yields `default`. */
  function GetOr(d: seq<(string, Value)>, k: string, default: Value): (v: Value)
    ensures !HasKey(d, k) ==> v == default
    ensures HasKey(d, k) ==> v == Get(d, k)
  {
    if HasKey(d, k) then Get(d, k) else default
  }

  /** The member names of an object, each once, in order of first appearance. */
  function Keys(d: seq<(string, Value)>): (ks: seq<string>)
    ensures forall k :: k in ks <==> HasKey(d, k)
    decreases |d|
  {
    if d == [] then []
    else
      var init := Keys(d[..|d| - 1]);
      assert forall k :: HasKey(d, k) <==> HasKey(d[..|d| - 1], k) || d[|d| - 1].0 == k;
      if d[|d| - 1].0 in init then init else init + [d[|d| - 1].0]
  }

  /** The one-character strings of `s`, as iterating over a string yields them. */
  function Chars(s: string): (cs: seq<Value>)
    ensures |cs| == |s| && forall i :: 0 <= i < |s| ==> cs[i] == Str([s[i]])
    decreases |s|
  {
    if s == [] then [] else [Str([s[0]])] + Chars(s[1..])
  }

  function StrValues(ks: seq<string>): (vs: seq<Value>)
    ensures |vs| == |ks| && forall i :: 0 <= i < |ks| ==> vs[i] == Str(ks[i])
    decreases |ks|
  {
    if ks == [] then [] else [Str(ks[0])] + StrValues(ks[1..])
  }

  /** `for x in v`: the items of a list, the characters of a string, the
      member names of an object; any other value is not iterable. */
  function Iterate(v: Value): (r: Option<seq<Value>>)
    ensures r.None? <==> v.Null? || v.Bool? || v.Int? || v.Float?
    ensures v.List? ==> r == Some(v.items)
  {
    match v
    case List(items) => Some(items)
    case Str(s) => Some(Chars(s))
    case Dict(entries) => Some(StrValues(Keys(entries)))
    case _ => None
  }

  /** `isinstance(v, list)`. */
  predicate IsList(v: Value) {
    v.List?
  }

  /** The JSON object `{"msg": text}` that most responses carry. */
  function Msg(text: string): Value {
    Dict([("msg", Str(text))])
  }

  /** A Flask response: status code and JSON body. */
  datatype Response = Response(status: int, body: Value)

  // Status codes of Backend/config.py.
  const HTTP_200_OK := 200
  const HTTP_201_CREATED := 201
  const HTTP_400_BAD_REQUEST := 400
  const HTTP_404_NOT_FOUND := 404
  const HTTP_409_CONFLICT := 409
  /** What Flask answers when a view raises an exception it does not catch. */
  const HTTP_500_INTERNAL := 500

  /** The exceptions the back end's calls raise, as far as the routes tell
      them apart: the driver's `IntegrityError`, Python's `TypeError`, and
      anything else. Each carries the text `str(e)` gives. */
  datatype Exception = IntegrityError(reason: string) | TypeError(reason: string) | OtherError(reason: string)

  /** A call that returns a value or raises. */
  datatype Call<T> = Returned(value: T) | Raised(error: Exception)
}

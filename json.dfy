/** Decoded JSON values as `json.loads` hands them to the agent, and the
    handful of Python operations the agent applies to them: `dict.get`,
    truthiness, iteration and `str()`. */
module Json {
  import opened Outcomes
  import Text

  /** A decoded JSON value. An object keeps its entries in insertion order
      (a decoded dict has distinct keys); numbers are integers. */
  datatype Json =
    | JNull
    | JBool(b: bool)
    | JInt(i: int)
    | JStr(s: string)
    | JArr(items: seq<Json>)
    | JObj(fields: seq<(string, Json)>)

  /** The value stored under `key` in a decoded table, if any (the first
      entry with that key). */
  function Lookup<V>(fields: seq<(string, V)>, key: string): (r: Option<V>)
    ensures r.None? <==> forall k :: 0 <= k < |fields| ==> fields[k].0 != key
    ensures r.Some? ==> exists k :: 0 <= k < |fields| && fields[k] == (key, r.value)
  {
    if fields == [] then None
    else if fields[0].0 == key then Some(fields[0].1)
    else
      var r := Lookup(fields[1..], key);
      assert forall k :: 1 <= k < |fields| ==> fields[k] == fields[1..][k - 1];
      r
  }

  /** Python's `d.get(key, default)`. */
  function Get(fields: seq<(string, Json)>, key: string, default: Json): (v: Json)
    ensures (forall k :: 0 <= k < |fields| ==> fields[k].0 != key) ==> v == default
    ensures (exists k :: 0 <= k < |fields| && fields[k].0 == key) ==>
              exists k :: 0 <= k < |fields| && fields[k] == (key, v)
  {
    match Lookup(fields, key)
    case None => default
    case Some(v) => v
  }

  /** Python's truth value of a decoded JSON value (`if value:`). */
  predicate Truthy(v: Json)
  {
    match v
    case JNull => false
    case JBool(b) => b
    case JInt(i) => i != 0
    case JStr(s) => s != []
    case JArr(items) => items != []
    case JObj(fields) => fields != []
  }

  /** The Python class name of the decoded value. */
  function TypeName(v: Json): string
  {
    match v
    case JNull => "NoneType"
    case JBool(_) => "bool"
    case JInt(_) => "int"
    case JStr(_) => "str"
    case JArr(_) => "list"
    case JObj(_) => "dict"
  }

  predicate Iterable(v: Json)
  {
    v.JStr? || v.JArr? || v.JObj?
  }

  /** The `TypeError` that `for x in v` raises on a value that is not iterable. */
  function NotIterable(v: Json): string
  {
    "'" + TypeName(v) + "' object is not iterable"
  }

  /** What `for x in v` walks through: the items of a list, the one-character
      strings of a string, the keys of a dict; any other value raises
      `TypeError`. */
  function Members(v: Json): (r: Call<seq<Json>>)
    ensures r.Raises? <==> !Iterable(v)
    ensures r.Raises? ==> r.message == NotIterable(v)
    ensures v.JArr? ==> r == Returns(v.items)
    ensures v.JStr? ==> |r.value| == |v.s| && forall i :: 0 <= i < |v.s| ==> r.value[i] == JStr([v.s[i]])
    ensures v.JObj? ==> |r.value| == |v.fields| && forall i :: 0 <= i < |v.fields| ==> r.value[i] == JStr(v.fields[i].0)
  {
    match v
    case JArr(items) => Returns(items)
    case JStr(s) => Returns(seq(|s|, i requires 0 <= i < |s| => JStr([s[i]])))
    case JObj(fields) => Returns(seq(|fields|, i requires 0 <= i < |fields| => JStr(fields[i].0)))
    case _ => Raises(NotIterable(v))
  }

  function Digit(d: nat): char
    requires d < 10
  {
    "0123456789"[d]
  }

  /** Decimal digits of `n`, most significant first. */
  function NatText(n: nat): (r: string)
    ensures r != []
    ensures forall i :: 0 <= i < |r| ==> '0' <= r[i] <= '9'
  {
    if n < 10 then [Digit(n)] else NatText(n / 10) + [Digit(n % 10)]
  }

  /** Python's `str()` of an int. */
  function IntText(i: int): string
  {
    if i < 0 then "-" + NatText(-i) else NatText(i)
  }

  /** Python's `repr()` of a value inside a list or a dict. */
  function Repr(v: Json): string
  {
    match v
    case JNull => "None"
    case JBool(b) => if b then "True" else "False"
    case JInt(i) => IntText(i)
    case JStr(s) => "'" + s + "'"
    case JArr(items) =>
      "[" + Text.Join(seq(|items|, k requires 0 <= k < |items| => Repr(items[k])), ", ") + "]"
    case JObj(fields) =>
      "{" + Text.Join(seq(|fields|, k requires 0 <= k < |fields| =>
                            "'" + fields[k].0 + "': " + Repr(fields[k].1)), ", ") + "}"
  }

  /** Python's `str()`: a string is its own text, anything else its repr. */
  function Str(v: Json): (r: string)
    ensures v.JStr? ==> r == v.s
  {
    if v.JStr? then v.s else Repr(v)
  }
}

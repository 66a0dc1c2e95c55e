// Values as Python's json module loads them, and the Python operators the
// game code applies to them. Floating-point numbers are not modelled.
module Json {
  import opened Wrappers
  import PyText

  /** A loaded JSON value. An object is a dict kept in insertion order. */
  datatype Json =
    | JNull
    | JBool(b: bool)
    | JInt(i: int)
    | JStr(s: string)
    | JArray(items: seq<Json>)
    | JObject(members: seq<(string, Json)>)

  /** A Python dict with string keys, in insertion order. */
  type Dict = seq<(string, Json)>

  function Keys(d: Dict): seq<string>
  {
    seq(|d|, i requires 0 <= i < |d| => d[i].0)
  }

  predicate UniqueKeys(d: Dict)
  {
    forall i, j :: 0 <= i < j < |d| ==> d[i].0 != d[j].0
  }

  /** d.get(key), or None when the key is absent. */
  function Lookup(d: Dict, key: string): (r: Option<Json>)
    ensures r.None? <==> key !in Keys(d)
  {
    if |d| == 0 then None
    else if d[0].0 == key then
      assert Keys(d)[0] == key;
      Some(d[0].1)
    else
      assert Keys(d) == [d[0].0] + Keys(d[1..]);
      Lookup(d[1..], key)
  }

  /** A found value is paired with its key in the dict. */
  lemma {:induction false} LookupIn(d: Dict, key: string)
    requires Lookup(d, key).Some?
    ensures (key, Lookup(d, key).value) in d
  {
    if d[0].0 != key {
      LookupIn(d[1..], key);
    }
  }

  /** d.get(key, default) */
  function Get(d: Dict, key: string, default: Json): Json
  {
    Lookup(d, key).GetOr(default)
  }

  /** d[key] = value: an existing key keeps its position, a new key goes last. */
  function Set(d: Dict, key: string, value: Json): (r: Dict)
    ensures key in Keys(d) ==> Keys(r) == Keys(d)
    ensures key !in Keys(d) ==> Keys(r) == Keys(d) + [key]
  {
    if |d| == 0 then [(key, value)]
    else if d[0].0 == key then
      var r := [(key, value)] + d[1..];
      assert Keys(r) == Keys(d) by {
        assert forall i :: 0 <= i < |d| ==> Keys(r)[i] == Keys(d)[i];
      }
      assert Keys(d)[0] == key;
      r
    else
      assert Keys(d) == [d[0].0] + Keys(d[1..]);
      var r := [d[0]] + Set(d[1..], key, value);
      assert Keys(r) == [d[0].0] + Keys(Set(d[1..], key, value));
      r
  }

  /** d.pop(key, None) on a dict: the key's entry is removed, the others keep their order. */
  function Remove(d: Dict, key: string): (r: Dict)
    ensures key !in Keys(r)
    ensures |r| <= |d|
  {
    if |d| == 0 then []
    else if d[0].0 == key then Remove(d[1..], key)
    else
      var r := [d[0]] + Remove(d[1..], key);
      assert Keys(r) == [d[0].0] + Keys(Remove(d[1..], key));
      r
  }

  /** Setting a key then reading it gives the new value; other keys read as before. */
  lemma {:induction false} LookupSet(d: Dict, key: string, value: Json, other: string)
    ensures Lookup(Set(d, key, value), key) == Some(value)
    ensures other != key ==> Lookup(Set(d, key, value), other) == Lookup(d, other)
    decreases |d|
  {
    if |d| > 0 && d[0].0 != key {
      LookupSet(d[1..], key, value, other);
    }
  }

  /** Removing a key leaves every other key's value as it was. */
  lemma {:induction false} LookupRemove(d: Dict, key: string, other: string)
    ensures other != key ==> Lookup(Remove(d, key), other) == Lookup(d, other)
    decreases |d|
  {
    if |d| > 0 {
      LookupRemove(d[1..], key, other);
    }
  }

  /** Python truthiness of a value. */
  predicate Truthy(j: Json)
  {
    match j
    case JNull => false
    case JBool(b) => b
    case JInt(i) => i != 0
    case JStr(s) => s != ""
    case JArray(xs) => xs != []
    case JObject(ms) => ms != []
  }

  /** isinstance(j, int): in Python a bool is an int, True being 1. */
  function AsInt(j: Json): Option<int>
  {
    match j
    case JInt(i) => Some(i)
    case JBool(b) => Some(if b then 1 else 0)
    case _ => None
  }

  /** Python's == on loaded values: 1 == True, and dicts compare regardless of key order. */
  predicate PyEq(a: Json, b: Json)
    decreases a
  {
    match a
    case JNull => b.JNull?
    case JBool(_) => AsInt(b).Some? && AsInt(a) == AsInt(b)
    case JInt(_) => AsInt(b).Some? && AsInt(a) == AsInt(b)
    case JStr(s) => b.JStr? && b.s == s
    case JArray(xs) =>
      b.JArray? && |xs| == |b.items| && forall i :: 0 <= i < |xs| ==> PyEq(xs[i], b.items[i])
    case JObject(ms) =>
      b.JObject? && |ms| == |b.members|
      && forall i :: 0 <= i < |ms| ==>
           Lookup(b.members, ms[i].0).Some? && PyEq(ms[i].1, Lookup(b.members, ms[i].0).value)
  }

  function Repeat<T>(s: seq<T>, n: int): (r: seq<T>)
    ensures n <= 0 ==> r == []
    decreases n
  {
    if n <= 0 then [] else s + Repeat(s, n - 1)
  }

  /** a + b; None where Python raises TypeError. */
  function PyAdd(a: Json, b: Json): Option<Json>
  {
    if AsInt(a).Some? && AsInt(b).Some? then Some(JInt(AsInt(a).value + AsInt(b).value))
    else if a.JStr? && b.JStr? then Some(JStr(a.s + b.s))
    else if a.JArray? && b.JArray? then Some(JArray(a.items + b.items))
    else None
  }

  /** a * b; None where Python raises TypeError. Strings and lists repeat. */
  function PyMul(a: Json, b: Json): Option<Json>
  {
    if AsInt(a).Some? && AsInt(b).Some? then Some(JInt(AsInt(a).value * AsInt(b).value))
    else if a.JStr? && AsInt(b).Some? then Some(JStr(Repeat(a.s, AsInt(b).value)))
    else if AsInt(a).Some? && b.JStr? then Some(JStr(Repeat(b.s, AsInt(a).value)))
    else if a.JArray? && AsInt(b).Some? then Some(JArray(Repeat(a.items, AsInt(b).value)))
    else if AsInt(a).Some? && b.JArray? then Some(JArray(Repeat(b.items, AsInt(a).value)))
    else None
  }

  /** int(j); None where Python raises. */
  function PyIntOf(j: Json): Option<int>
  {
    match j
    case JStr(s) => PyText.ParseInt(s)
    case _ => AsInt(j)
  }

  /** `key in container` for a str key; None where Python raises TypeError. */
  function PyIn(key: string, container: Json): Option<bool>
  {
    match container
    case JObject(ms) => Some(key in Keys(ms))
    case JArray(xs) => Some(JStr(key) in xs)
    case JStr(s) => Some(PyText.Contains(s, key))
    case _ => None
  }

  /** container[key] for a str key; None where Python raises KeyError or TypeError. */
  function PyGetItem(container: Json, key: string): Option<Json>
  {
    match container
    case JObject(ms) => Lookup(ms, key)
    case _ => None
  }

  /** A key that `in` finds is one that indexing finds, for dicts. */
  lemma PyInDict(ms: Dict, key: string)
    ensures PyIn(key, JObject(ms)) == Some(PyGetItem(JObject(ms), key).Some?)
  {
  }
}

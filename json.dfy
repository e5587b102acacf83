/**
 * The Python values the converters inspect: CKAN package dicts, the
 * results of json.loads and the trees xmltodict builds.  A dict is an
 * association list with string keys, in the order the model fixes for
 * it (see Dicts).
 */
module Json {
  import opened Wrappers
  import Dicts
  import Text

  datatype Json =
    | JNull
    | JBool(b: bool)
    | JInt(i: int)
    | JFloat(f: real)
    | JStr(s: string)
    | JList(items: seq<Json>)
    | JObj(fields: seq<(string, Json)>)

  /** Python truthiness: None, False, 0, '' and empty containers are false. */
  predicate Truthy(v: Json) {
    match v
    case JNull => false
    case JBool(b) => b
    case JInt(i) => i != 0
    case JFloat(f) => f != 0.0
    case JStr(s) => s != ""
    case JList(xs) => xs != []
    case JObj(fs) => fs != []
  }

  /** The key set of every dict in v holds each key once, as in Python. */
  predicate WellFormed(v: Json) {
    match v
    case JList(xs) => forall i :: 0 <= i < |xs| ==> WellFormed(xs[i])
    case JObj(fs) => Dicts.UniqueKeys(fs) && forall i :: 0 <= i < |fs| ==> WellFormed(fs[i].1)
    case _ => true
  }

  predicate IsNumber(v: Json) {
    v.JBool? || v.JInt? || v.JFloat?
  }

  /** The number a bool, an int or a float stands for when compared: True == 1 == 1.0. */
  function NumberOf(v: Json): real
    requires IsNumber(v)
  {
    match v
    case JBool(b) => if b then 1.0 else 0.0
    case JInt(i) => i as real
    case JFloat(f) => f
  }

  /** Two dicts have the same set of keys. */
  predicate SameKeys(fa: seq<(string, Json)>, fb: seq<(string, Json)>) {
    (forall k :: k in Dicts.Keys(fa) ==> k in Dicts.Keys(fb)) &&
    (forall k :: k in Dicts.Keys(fb) ==> k in Dicts.Keys(fa))
  }

  /**
   * Python's == on values of which at least one side is a plain dict
   * wherever dicts meet: numbers by value, strings by their characters,
   * lists item by item, and dicts as sets of keys with equal values,
   * whatever the order of their keys.
   */
  predicate PyEq(a: Json, b: Json) {
    match a
    case JNull => b.JNull?
    case JBool(_) => IsNumber(b) && NumberOf(a) == NumberOf(b)
    case JInt(_) => IsNumber(b) && NumberOf(a) == NumberOf(b)
    case JFloat(_) => IsNumber(b) && NumberOf(a) == NumberOf(b)
    case JStr(s) => b.JStr? && b.s == s
    case JList(xs) =>
      b.JList? && |xs| == |b.items| && forall i :: 0 <= i < |xs| ==> PyEq(xs[i], b.items[i])
    case JObj(fs) =>
      b.JObj? && SameKeys(fs, b.fields) &&
      forall i :: 0 <= i < |fs| && Dicts.Get(fs, fs[i].0) == Some(fs[i].1) ==>
        Dicts.Get(b.fields, fs[i].0).Some? && PyEq(fs[i].1, Dicts.Get(b.fields, fs[i].0).value)
  }

  /** `item in xs` under Python's ==. */
  predicate PyIn(item: Json, xs: seq<Json>) {
    exists i :: 0 <= i < |xs| && PyEq(item, xs[i])
  }

  /** Every value equals itself. */
  lemma {:induction false} PyEqReflexive(v: Json)
    ensures PyEq(v, v)
  {
    match v
    case JList(xs) =>
      forall i | 0 <= i < |xs|
        ensures PyEq(xs[i], xs[i])
      {
        PyEqReflexive(xs[i]);
      }
    case JObj(fs) =>
      forall i | 0 <= i < |fs| && Dicts.Get(fs, fs[i].0) == Some(fs[i].1)
        ensures PyEq(fs[i].1, Dicts.Get(fs, fs[i].0).value)
      {
        PyEqReflexive(fs[i].1);
      }
    case _ =>
  }

  /** A two-key dict equals the same dict with its keys the other way round, though the two association lists are different Dafny values. */
  lemma DictEqIgnoresOrder(k1: string, k2: string, a: Json, b: Json)
    requires k1 != k2
    ensures JObj([(k1, a), (k2, b)]) != JObj([(k2, b), (k1, a)])
    ensures PyEq(JObj([(k1, a), (k2, b)]), JObj([(k2, b), (k1, a)]))
  {
    var fa, fb := [(k1, a), (k2, b)], [(k2, b), (k1, a)];
    assert fa[0] != fb[0];
    assert Dicts.Keys(fa) == [k1, k2] && Dicts.Keys(fb) == [k2, k1];
    assert Dicts.Get(fb, k1) == Some(a) && Dicts.Get(fb, k2) == Some(b);
    PyEqReflexive(a);
    PyEqReflexive(b);
  }

  /** The one-character strings Python iterates over for a str value. */
  function Chars(s: string): (r: seq<Json>)
    ensures |r| == |s|
    ensures forall i :: 0 <= i < |s| ==> r[i] == JStr([s[i]])
  {
    seq(|s|, i requires 0 <= i < |s| => JStr([s[i]]))
  }

  /** `for x in v`: list items, dict keys or string characters; anything else raises TypeError. */
  function Iterate(v: Json): (r: Result<seq<Json>>)
    ensures r.Err? <==> !(v.JList? || v.JObj? || v.JStr?)
    ensures v.JList? ==> r == Ok(v.items)
    ensures v.JObj? ==> r.Ok? && |r.value| == |v.fields|
  {
    match v
    case JList(xs) => Ok(xs)
    case JObj(fs) => Ok(seq(|fs|, i requires 0 <= i < |fs| => JStr(fs[i].0)))
    case JStr(s) => Ok(Chars(s))
    case _ => Err(TypeError)
  }

  /** The value under key in a dict, or None. */
  function Lookup(v: Json, key: string): (r: Option<Json>)
    requires v.JObj?
    ensures r.Some? <==> key in Dicts.Keys(v.fields)
  {
    Dicts.Get(v.fields, key)
  }

  predicate HasKey(v: Json, key: string) {
    v.JObj? && key in Dicts.Keys(v.fields)
  }

  /**
   * v.get(key, default): the stored value, or default when the key is
   * absent; AttributeError when v is not a dict.
   */
  function GetOr(v: Json, key: string, default: Json): (r: Result<Json>)
    ensures r.Err? <==> !v.JObj?
    ensures r.Err? ==> r.error == AttributeError
    ensures v.JObj? && !HasKey(v, key) ==> r == Ok(default)
    ensures HasKey(v, key) ==> r == Ok(Lookup(v, key).value)
  {
    if !v.JObj? then Err(AttributeError)
    else match Lookup(v, key)
      case Some(x) => Ok(x)
      case None => Ok(default)
  }

  /** v[key]: KeyError when absent, TypeError when v is not a dict. */
  function Index(v: Json, key: string): (r: Result<Json>)
    ensures r.Ok? <==> HasKey(v, key)
    ensures !v.JObj? ==> r == Err(TypeError)
    ensures v.JObj? && !HasKey(v, key) ==> r == Err(KeyError)
    ensures r.Ok? ==> Dicts.Get(v.fields, key) == Some(r.value)
  {
    if !v.JObj? then Err(TypeError)
    else match Lookup(v, key)
      case Some(x) => Ok(x)
      case None => Err(KeyError)
  }

  /** d[key] = x on a dict value. */
  function Put(v: Json, key: string, x: Json): (r: Json)
    requires v.JObj?
    ensures r.JObj? && HasKey(r, key) && Lookup(r, key) == Some(x)
    ensures forall k :: k != key ==> Dicts.Get(r.fields, k) == Dicts.Get(v.fields, k)
  {
    forall k ensures Dicts.Get(Dicts.Set(v.fields, key, x), k) == if k == key then Some(x) else Dicts.Get(v.fields, k) {
      Dicts.GetSet(v.fields, key, x, k);
    }
    JObj(Dicts.Set(v.fields, key, x))
  }

  /**
   * str(v) for the values the converters format: strings unchanged,
   * integers in decimal, the Python spellings of None and the booleans.
   * Floats (Python 2 keeps 12 significant digits), lists and dicts are
   * rendered by the given function.
   */
  function PyStr(v: Json, repr: Json -> string): (r: string)
    ensures v.JStr? ==> r == v.s
    ensures v.JInt? ==> r == Text.IntToString(v.i)
  {
    match v
    case JNull => "None"
    case JBool(b) => if b then "True" else "False"
    case JInt(i) => Text.IntToString(i)
    case JStr(s) => s
    case _ => repr(v)
  }
}

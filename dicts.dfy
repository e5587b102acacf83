/**
 * Python dictionaries as association lists.  The list fixes one order of
 * the keys: for an OrderedDict it is the insertion order, for a plain
 * Python 2 dict, which iterates in hash order, it is one order the model
 * chooses.  Assigning to an existing key keeps its position.
 * Also the total size of a map of lists, used by both registries to count
 * their entries.
 */
module Dicts {
  import opened Wrappers

  function Keys<K, V>(d: seq<(K, V)>): (ks: seq<K>)
    ensures |ks| == |d|
    ensures forall i :: 0 <= i < |d| ==> ks[i] == d[i].0
  {
    seq(|d|, i requires 0 <= i < |d| => d[i].0)
  }

  predicate UniqueKeys<K(==), V>(d: seq<(K, V)>) {
    forall i, j :: 0 <= i < j < |d| ==> d[i].0 != d[j].0
  }

  lemma KeysSnoc<K, V>(d: seq<(K, V)>)
    requires d != []
    ensures Keys(d) == Keys(d[..|d| - 1]) + [d[|d| - 1].0]
  {
  }

  lemma UniqueKeysInit<K, V>(d: seq<(K, V)>)
    requires d != [] && UniqueKeys(d)
    ensures UniqueKeys(d[..|d| - 1])
    ensures d[|d| - 1].0 !in Keys(d[..|d| - 1])
  {
    var init := d[..|d| - 1];
    forall i, j | 0 <= i < j < |init|
      ensures init[i].0 != init[j].0
    {
      assert init[i] == d[i] && init[j] == d[j];
    }
  }

  /** d.get(k): the value stored under the first entry with key k. */
  function Get<K(==), V>(d: seq<(K, V)>, k: K): (r: Option<V>)
    ensures r.None? <==> k !in Keys(d)
    ensures r.Some? ==> exists i :: 0 <= i < |d| && d[i] == (k, r.value)
  {
    if d == [] then None
    else if d[0].0 == k then Some(d[0].1)
    else
      var r := Get(d[1..], k);
      assert Keys(d) == [d[0].0] + Keys(d[1..]);
      assert r.Some? ==> exists i :: 0 <= i < |d| && d[i] == (k, r.value) by {
        if r.Some? {
          var i :| 0 <= i < |d[1..]| && d[1..][i] == (k, r.value);
          assert d[i + 1] == (k, r.value);
        }
      }
      r
  }

  /** A dict of four entries with distinct keys finds each value under its own key. */
  lemma FourEntries<K, V>(k1: K, k2: K, k3: K, k4: K, a: V, b: V, c: V, d: V)
    requires k1 != k2 && k1 != k3 && k1 != k4 && k2 != k3 && k2 != k4 && k3 != k4
    ensures var f := [(k1, a), (k2, b), (k3, c), (k4, d)];
      Keys(f) == [k1, k2, k3, k4] &&
      Get(f, k1) == Some(a) && Get(f, k2) == Some(b) && Get(f, k3) == Some(c) && Get(f, k4) == Some(d)
  {
  }

  /** d[k] = v: overwrite in place when k is present, append otherwise. */
  function Set<K(==), V>(d: seq<(K, V)>, k: K, v: V): (r: seq<(K, V)>)
    ensures Keys(r) == if k in Keys(d) then Keys(d) else Keys(d) + [k]
  {
    if d == [] then [(k, v)]
    else if d[0].0 == k then [(k, v)] + d[1..]
    else
      assert Keys(d) == [d[0].0] + Keys(d[1..]);
      var r := [d[0]] + Set(d[1..], k, v);
      assert Keys(r) == [d[0].0] + Keys(Set(d[1..], k, v));
      r
  }

  lemma {:induction false} GetSet<K, V>(d: seq<(K, V)>, k: K, v: V, k': K)
    ensures Get(Set(d, k, v), k') == if k' == k then Some(v) else Get(d, k')
  {
    if d != [] && d[0].0 != k {
      GetSet(d[1..], k, v, k');
      assert Set(d, k, v)[1..] == Set(d[1..], k, v);
    }
  }

  lemma {:induction false} SetKeepsUnique<K, V>(d: seq<(K, V)>, k: K, v: V)
    requires UniqueKeys(d)
    ensures UniqueKeys(Set(d, k, v))
  {
    var r := Set(d, k, v);
    assert Keys(r) == if k in Keys(d) then Keys(d) else Keys(d) + [k];
    forall i, j | 0 <= i < j < |r| ensures r[i].0 != r[j].0 {
      assert Keys(r)[i] == r[i].0 && Keys(r)[j] == r[j].0;
      if j < |d| {
        assert Keys(d)[i] == d[i].0 && Keys(d)[j] == d[j].0;
      } else {
        assert Keys(d)[i] == d[i].0;
      }
    }
  }

  /** Assigning the same key twice keeps only the second value, in the first one's place. */
  lemma {:induction false} SetSet<K, V>(d: seq<(K, V)>, k: K, v: V, w: V)
    ensures Set(Set(d, k, v), k, w) == Set(d, k, w)
  {
    if d != [] && d[0].0 != k {
      SetSet(d[1..], k, v, w);
      assert Set(d, k, v)[1..] == Set(d[1..], k, v);
    }
  }

  lemma SetFresh<K, V>(d: seq<(K, V)>, k: K, v: V)
    requires k !in Keys(d)
    ensures Set(d, k, v) == d + [(k, v)]
  {
    if d != [] {
      assert Keys(d) == [d[0].0] + Keys(d[1..]);
      SetFresh(d[1..], k, v);
    }
  }

  /** The sum of the lengths of the lists stored in m. */
  ghost function TotalLength<K, V>(m: map<K, seq<V>>): nat
    decreases |m.Keys|
  {
    if m == map[] then 0
    else
      var k :| k in m;
      |m[k]| + TotalLength(m - {k})
  }

  lemma {:induction false} TotalLengthRemove<K, V>(m: map<K, seq<V>>, k: K)
    requires k in m
    ensures TotalLength(m) == |m[k]| + TotalLength(m - {k})
    decreases |m.Keys|
  {
    var k' :| k' in m && TotalLength(m) == |m[k']| + TotalLength(m - {k'});
    if k' != k {
      var m1 := m - {k'};
      TotalLengthRemove(m1, k);
      var m2 := m - {k};
      TotalLengthRemove(m2, k');
      assert m1 - {k} == m2 - {k'};
    }
  }

  lemma TotalLengthUpdate<K, V>(m: map<K, seq<V>>, k: K, s: seq<V>)
    ensures TotalLength(m[k := s]) == TotalLength(m) - (if k in m then |m[k]| else 0) + |s|
  {
    var m' := m[k := s];
    TotalLengthRemove(m', k);
    if k in m {
      TotalLengthRemove(m, k);
      assert m' - {k} == m - {k};
    } else {
      assert m' - {k} == m;
    }
  }

  /** The part of m whose keys lie in ks. */
  ghost function RestrictKeys<K, V>(m: map<K, seq<V>>, ks: set<K>): map<K, seq<V>> {
    map k | k in ks && k in m :: m[k]
  }

  lemma RestrictAll<K, V>(m: map<K, seq<V>>)
    ensures RestrictKeys(m, m.Keys) == m
  {
  }

  lemma RestrictEmpty<K, V>(m: map<K, seq<V>>)
    ensures TotalLength(RestrictKeys(m, {})) == 0
  {
    assert RestrictKeys(m, {}) == map[];
  }

  lemma RestrictRemove<K, V>(m: map<K, seq<V>>, ks: set<K>, k: K)
    requires k in ks && ks <= m.Keys
    ensures TotalLength(RestrictKeys(m, ks)) == |m[k]| + TotalLength(RestrictKeys(m, ks - {k}))
  {
    var r := RestrictKeys(m, ks);
    TotalLengthRemove(r, k);
    assert r - {k} == RestrictKeys(m, ks - {k});
  }
}

/**
 * The DataCite resource converters (4.3 and 3.1): the resource's own
 * values are laid over the DataCite record converted from its package by
 * _inherit_from_package, whose merge_dict_lists extends each list of a
 * resource sub-dict by the package's items it lacks.  Also the size
 * entry a resource contributes.
 */
module ResourceInherit {
  import opened Wrappers
  import opened Json
  import opened Libraries
  import Dicts
  import Text
  import Seqs

  type Fields = seq<(string, Json)>

  /** The keys whose resource value always replaces the package's. */
  const Replace: seq<string> := ["identifier", "sizes", "version", "formats", "resourceType", "alternateIdentifiers"]

  // ---------------------------------------------------------------------
  // merge_dict_lists

  /**
   * `item in list1` as merge_dict_lists evaluates it once the package
   * items in added have been appended to the resource's list1.  The
   * resource's items are plain dicts, which compare with Python's dict ==
   * whatever the key order; the appended items are xmltodict's
   * OrderedDicts, which compare with another OrderedDict key order
   * included, as the values themselves do.
   */
  predicate InMerged(item: Json, list1: seq<Json>, added: seq<Json>) {
    PyIn(item, list1) || item in added
  }

  /** The package items `for item in list2: if item not in list1: list1 += [item]` appends, in order. */
  function Appended(list1: seq<Json>, list2: seq<Json>): seq<Json> {
    if list2 == [] then []
    else
      var added := Appended(list1, list2[..|list2| - 1]);
      var item := list2[|list2| - 1];
      if InMerged(item, list1, added) then added else added + [item]
  }

  /** list1 after merge_dict_lists has extended it by the items of list2 it lacks. */
  function MergedList(list1: seq<Json>, list2: seq<Json>): seq<Json> {
    list1 + Appended(list1, list2)
  }

  /** dict2.get(key, []), wrapped in a list when it is not one. */
  function AsList(stored: Option<Json>): seq<Json> {
    match stored
    case None => []
    case Some(JList(xs)) => xs
    case Some(x) => [x]
  }

  /** What one key of dict1 holds after its turn; AttributeError when dict2 is not a dict. */
  function MergedEntry(key: string, value: Json, dict2: Json): Result<Json> {
    if !value.JList? then Ok(value)
    else if !dict2.JObj? then Err(AttributeError)
    else Ok(JList(MergedList(value.items, AsList(Dicts.Get(dict2.fields, key)))))
  }

  /**
   * dict1 after merge_dict_lists has visited the given entries, and the
   * error that stopped it; the entries after the failing one are left as
   * they were.
   */
  function MergedDict(dict1: Fields, dict2: Json): (Fields, Option<PyError>) {
    if dict1 == [] then ([], None)
    else MergeStep(MergedDict(dict1[..|dict1| - 1], dict2), dict1[|dict1| - 1], dict2)
  }

  /** One turn of `for key in dict1.keys()`, unless an earlier one raised. */
  function MergeStep(acc: (Fields, Option<PyError>), entry: (string, Json), dict2: Json): (Fields, Option<PyError>) {
    if acc.1.Some? then (acc.0 + [entry], acc.1)
    else match MergedEntry(entry.0, entry.1, dict2)
      case Ok(v) => (acc.0 + [(entry.0, v)], None)
      case Err(e) => (acc.0 + [entry], Some(e))
  }

  method MergeList(list1: seq<Json>, list2: seq<Json>) returns (merged: seq<Json>)
    ensures merged == MergedList(list1, list2)
  {
    merged := list1;
    for i := 0 to |list2|
      invariant merged == list1 + Appended(list1, list2[..i])
    {
      assert list2[..i + 1][..i] == list2[..i];
      var item := list2[i];
      assert merged[|list1|..] == Appended(list1, list2[..i]);
      if !InMerged(item, list1, merged[|list1|..]) {
        merged := merged + [item];
      }
    }
    assert list2[..|list2|] == list2;
  }

  /** merge_dict_lists(dict1, dict2): the new contents of dict1, and the exception it raised if any. */
  method MergeDictLists(dict1: Fields, dict2: Json) returns (fields: Fields, error: Option<PyError>)
    ensures (fields, error) == MergedDict(dict1, dict2)
  {
    fields := dict1;
    error := None;
    var i := 0;
    while i < |dict1| && error.None?
      invariant 0 <= i <= |dict1|
      invariant |fields| == |dict1| && fields[i..] == dict1[i..]
      invariant (fields[..i], error) == MergedDict(dict1[..i], dict2)
    {
      var (key, value) := dict1[i];
      var entry := dict1[i];
      var error' := None;
      if value.JList? {
        if !dict2.JObj? {
          error' := Some(AttributeError);
        } else {
          var merged := MergeList(value.items, AsList(Dicts.Get(dict2.fields, key)));
          entry := (key, JList(merged));
        }
      }
      MergeTurn(dict1, dict2, i, fields, entry, error');
      fields, error := fields[i := entry], error';
      i := i + 1;
    }
    if error.Some? {
      MergedDictStopsAt(dict1, dict2, i, fields, error);
    } else {
      Seqs.TakeAll(dict1);
      Seqs.TakeAll(fields);
    }
  }

  /** Turn i of the loop of merge_dict_lists keeps dict1 in step with MergedDict. */
  lemma MergeTurn(dict1: Fields, dict2: Json, i: nat, fields: Fields, entry: (string, Json), error: Option<PyError>)
    requires i < |dict1| && |fields| == |dict1| && fields[i..] == dict1[i..]
    requires MergedDict(dict1[..i], dict2) == (fields[..i], None)
    requires MergeStep((fields[..i], None), dict1[i], dict2) == (fields[..i] + [entry], error)
    ensures var fields' := fields[i := entry];
      |fields'| == |dict1| && fields'[i + 1..] == dict1[i + 1..] &&
      MergedDict(dict1[..i + 1], dict2) == (fields'[..i + 1], error)
  {
    MergedDictAt(dict1, dict2, i);
    Seqs.UpdateAt(fields, i, entry);
    Seqs.DropNext(fields, i);
    Seqs.DropNext(dict1, i);
  }

  /** merge_dict_lists over the first i + 1 entries is turn i after the first i. */
  lemma MergedDictAt(dict1: Fields, dict2: Json, i: nat)
    requires i < |dict1|
    ensures MergedDict(dict1[..i + 1], dict2) == MergeStep(MergedDict(dict1[..i], dict2), dict1[i], dict2)
  {
    Seqs.TakeSnoc(dict1, i);
    var pre := dict1[..i + 1];
    assert pre[|pre| - 1] == dict1[i];
  }

  /** After merge_dict_lists raises at entry i, dict1 holds what MergedDict says. */
  lemma MergedDictStopsAt(dict1: Fields, dict2: Json, i: nat, fields: Fields, error: Option<PyError>)
    requires i <= |dict1| && |fields| == |dict1| && fields[i..] == dict1[i..]
    requires error.Some? && (fields[..i], error) == MergedDict(dict1[..i], dict2)
    ensures (fields, error) == MergedDict(dict1, dict2)
  {
    MergedDictStops(dict1, dict2, i);
    Seqs.TakeDrop(fields, i);
  }

  /** Once merge_dict_lists has raised at entry i, the remaining entries stay as they are. */
  lemma {:induction false} MergedDictStops(dict1: Fields, dict2: Json, i: nat)
    requires i <= |dict1| && MergedDict(dict1[..i], dict2).1.Some?
    ensures var m := MergedDict(dict1[..i], dict2);
      MergedDict(dict1, dict2) == (m.0 + dict1[i..], m.1)
    decreases |dict1|
  {
    if |dict1| == i {
      Seqs.TakeAll(dict1);
      assert dict1[i..] == [];
      Seqs.AppendEmpty(MergedDict(dict1, dict2).0);
    } else {
      var init := dict1[..|dict1| - 1];
      assert init[..i] == dict1[..i];
      MergedDictStops(init, dict2, i);
      MergedDictStopsStep(dict1, dict2, i);
    }
  }

  lemma MergedDictStopsStep(dict1: Fields, dict2: Json, i: nat)
    requires i < |dict1| && MergedDict(dict1[..i], dict2).1.Some?
    requires var m := MergedDict(dict1[..i], dict2);
      MergedDict(dict1[..|dict1| - 1], dict2) == (m.0 + dict1[i..|dict1| - 1], m.1)
    ensures var m := MergedDict(dict1[..i], dict2);
      MergedDict(dict1, dict2) == (m.0 + dict1[i..], m.1)
  {
    var m := MergedDict(dict1[..i], dict2);
    var n := |dict1| - 1;
    assert MergedDict(dict1, dict2) == MergeStep(MergedDict(dict1[..n], dict2), dict1[n], dict2);
    assert dict1[i..n] + [dict1[n]] == dict1[i..];
    Seqs.AppendAssoc(m.0, dict1[i..n], [dict1[n]]);
  }

  /**
   * No new duplicates: every appended item equals no item of the
   * resource's list and none appended before it.
   */
  predicate AddsNoDuplicates(list1: seq<Json>, added: seq<Json>) {
    forall i :: 0 <= i < |added| ==> !PyIn(added[i], list1) && added[i] !in added[..i]
  }

  /**
   * What merge_dict_lists appends are package items, each new one once,
   * and every package item is either equal to one of the resource's items
   * or appended.
   */
  lemma {:induction false} MergedListShape(list1: seq<Json>, list2: seq<Json>)
    ensures var added := Appended(list1, list2);
      (forall i :: 0 <= i < |added| ==> added[i] in list2) &&
      AddsNoDuplicates(list1, added) &&
      (forall x :: x in list2 ==> PyIn(x, list1) || x in added)
  {
    if list2 != [] {
      MergedListShape(list1, list2[..|list2| - 1]);
      MergedListShapeStep(list1, list2);
    }
  }

  lemma MergedListShapeStep(list1: seq<Json>, list2: seq<Json>)
    requires list2 != []
    requires var added := Appended(list1, list2[..|list2| - 1]);
      (forall i :: 0 <= i < |added| ==> added[i] in list2[..|list2| - 1]) &&
      AddsNoDuplicates(list1, added) &&
      (forall x :: x in list2[..|list2| - 1] ==> PyIn(x, list1) || x in added)
    ensures var added := Appended(list1, list2);
      (forall i :: 0 <= i < |added| ==> added[i] in list2) &&
      AddsNoDuplicates(list1, added) &&
      (forall x :: x in list2 ==> PyIn(x, list1) || x in added)
  {
    var init := list2[..|list2| - 1];
    var added := Appended(list1, init);
    var item := list2[|list2| - 1];
    Seqs.InitLast(list2);
    assert forall x :: x in list2 ==> x in init || x == item;
    assert forall x :: x in init ==> x in list2;
    if !InMerged(item, list1, added) {
      assert (added + [item])[..|added|] == added;
    }
  }

  /** A package item equal to a resource item up to the order of its keys is not appended. */
  lemma MergeSkipsReorderedItem(k1: string, k2: string, a: Json, b: Json)
    requires k1 != k2
    ensures var item := JObj([(k1, a), (k2, b)]);
      MergedList([item], [JObj([(k2, b), (k1, a)])]) == [item]
  {
    var item, reordered := JObj([(k1, a), (k2, b)]), JObj([(k2, b), (k1, a)]);
    DictEqIgnoresOrder(k2, k1, b, a);
    assert PyEq(reordered, [item][0]);
    AppendedOne([item], reordered);
  }

  /** A single package item is appended exactly when no resource item equals it. */
  lemma AppendedOne(list1: seq<Json>, x: Json)
    ensures Appended(list1, [x]) == if PyIn(x, list1) then [] else [x]
    ensures MergedList(list1, [x]) == if PyIn(x, list1) then list1 else list1 + [x]
  {
    assert [x][..0] == [];
    assert !(x in []);
    if PyIn(x, list1) {
      Seqs.AppendEmpty(list1);
    }
  }

  /** A package value that is not a list is merged as the one-element list holding it. */
  lemma NonListPackageValue(key: string, list1: seq<Json>, dict2: Json, x: Json)
    requires dict2.JObj? && Dicts.Get(dict2.fields, key) == Some(x) && !x.JList?
    ensures MergedEntry(key, JList(list1), dict2) == Ok(JList(if PyIn(x, list1) then list1 else list1 + [x]))
  {
    assert AsList(Some(x)) == [x];
    AppendedOne(list1, x);
  }

  /** merge_dict_lists keeps dict1's keys, in order, whatever it does to their values. */
  lemma {:induction false} MergedDictKeys(dict1: Fields, dict2: Json)
    ensures Dicts.Keys(MergedDict(dict1, dict2).0) == Dicts.Keys(dict1)
  {
    if dict1 != [] {
      var init := dict1[..|dict1| - 1];
      MergedDictKeys(init, dict2);
      assert Dicts.Keys(dict1) == Dicts.Keys(init) + [dict1[|dict1| - 1].0];
    }
  }

  /** merge_dict_lists raises exactly when dict2 is not a dict and dict1 holds a list. */
  lemma {:induction false} MergedDictFails(dict1: Fields, dict2: Json)
    ensures MergedDict(dict1, dict2).1.Some? <==>
      !dict2.JObj? && exists i :: 0 <= i < |dict1| && dict1[i].1.JList?
  {
    if dict1 != [] {
      var init := dict1[..|dict1| - 1];
      MergedDictFails(init, dict2);
      if exists i :: 0 <= i < |init| && init[i].1.JList? {
        var i :| 0 <= i < |init| && init[i].1.JList?;
        assert dict1[i] == init[i];
      }
      if exists i :: 0 <= i < |dict1| && dict1[i].1.JList? {
        var i :| 0 <= i < |dict1| && dict1[i].1.JList?;
        if i < |init| {
          assert init[i] == dict1[i];
        }
      }
    }
  }

  // ---------------------------------------------------------------------
  // _inherit_from_package

  /**
   * The resource dict's entries so far (each merged sub-dict is the same
   * object the package now holds), the package dict, and the exception
   * that ended the loop if any.
   */
  datatype InheritState = InheritState(resource: Fields, package: Json, error: Option<PyError>)

  /** One turn of `for key in datacite_dict.keys()`. */
  function InheritStep(s: InheritState, key: string, value: Json): InheritState {
    if s.error.Some? then s.(resource := s.resource + [(key, value)])
    else if key in Replace || !value.JObj? then
      if !s.package.JObj? then InheritState(s.resource + [(key, value)], s.package, Some(TypeError))
      else InheritState(s.resource + [(key, value)], Put(s.package, key, value), None)
    else if !s.package.JObj? then InheritState(s.resource + [(key, value)], s.package, Some(AttributeError))
    else
      var dict2 := match Dicts.Get(s.package.fields, key) case Some(d) => d case None => JObj([]);
      var (merged, error) := MergedDict(value.fields, dict2);
      if error.Some? then InheritState(s.resource + [(key, JObj(merged))], s.package, error)
      else InheritState(s.resource + [(key, JObj(merged))], Put(s.package, key, JObj(merged)), None)
  }

  function InheritLoop(resource: Fields, package: Json): InheritState {
    if resource == [] then InheritState([], package, None)
    else
      var (key, value) := resource[|resource| - 1];
      InheritStep(InheritLoop(resource[..|resource| - 1], package), key, value)
  }

  /**
   * _inherit_from_package as the code behaves: the package dict, or on an
   * exception the resource dict, whose earlier sub-dicts are by then
   * already merged.
   */
  function InheritedAsWritten(resource: Fields, package: Json): Json {
    var s := InheritLoop(resource, package);
    if s.error.Some? then JObj(s.resource) else s.package
  }

  /** _inherit_from_package as intended: on an exception, the resource dict as it was passed in. */
  function Inherited(resource: Fields, package: Json): Json {
    var s := InheritLoop(resource, package);
    if s.error.Some? then JObj(resource) else s.package
  }

  /**
   * The body of the loop for one key: the value the resource dict now
   * holds under it, the package dict, and the exception raised if any.
   */
  method InheritKey(ghost done: Fields, key: string, value: Json, pkg: Json)
    returns (stored: Json, pkg': Json, error: Option<PyError>)
    ensures InheritStep(InheritState(done, pkg, None), key, value) == InheritState(done + [(key, stored)], pkg', error)
  {
    stored, pkg', error := value, pkg, None;
    if key in Replace || !value.JObj? {
      if !pkg.JObj? {
        error := Some(TypeError);
      } else {
        pkg' := Put(pkg, key, value);
      }
    } else if !pkg.JObj? {
      error := Some(AttributeError);
    } else {
      var dict2 := match Dicts.Get(pkg.fields, key) case Some(d) => d case None => JObj([]);
      var merged, mergeError := MergeDictLists(value.fields, dict2);
      stored := JObj(merged);
      if mergeError.Some? {
        error := mergeError;
      } else {
        pkg' := Put(pkg, key, stored);
      }
    }
  }

  /** _inherit_from_package(datacite_dict, datacite_package_dict) */
  method InheritFromPackage(resource: Fields, package: Json) returns (r: Json)
    ensures r == InheritedAsWritten(resource, package)
  {
    var res := resource;
    var pkg := package;
    var error: Option<PyError> := None;
    var i := 0;
    while i < |resource| && error.None?
      invariant 0 <= i <= |resource|
      invariant |res| == |resource| && res[i..] == resource[i..]
      invariant InheritLoop(resource[..i], package) == InheritState(res[..i], pkg, error)
    {
      var (key, value) := resource[i];
      var stored, pkg', error' := InheritKey(res[..i], key, value, pkg);
      InheritTurn(resource, package, i, res, pkg, stored, pkg', error');
      res, pkg, error := res[i := (key, stored)], pkg', error';
      i := i + 1;
    }
    if error.Some? {
      InheritLoopStopsAt(resource, package, i, res);
      return JObj(res);
    }
    Seqs.TakeAll(resource);
    return pkg;
  }

  /** Turn i of the loop keeps the resource dict and the package in step with InheritLoop. */
  lemma InheritTurn(resource: Fields, package: Json, i: nat, res: Fields, pkg: Json, stored: Json, pkg': Json, error': Option<PyError>)
    requires i < |resource| && |res| == |resource| && res[i..] == resource[i..]
    requires InheritLoop(resource[..i], package) == InheritState(res[..i], pkg, None)
    requires InheritStep(InheritState(res[..i], pkg, None), resource[i].0, resource[i].1)
      == InheritState(res[..i] + [(resource[i].0, stored)], pkg', error')
    ensures var res' := res[i := (resource[i].0, stored)];
      |res'| == |resource| && res'[i + 1..] == resource[i + 1..] &&
      InheritLoop(resource[..i + 1], package) == InheritState(res'[..i + 1], pkg', error')
  {
    InheritLoopAt(resource, package, i);
    Seqs.UpdateAt(res, i, (resource[i].0, stored));
    Seqs.DropNext(res, i);
    Seqs.DropNext(resource, i);
  }

  /** The loop over the first i + 1 entries is turn i after the loop over the first i. */
  lemma InheritLoopAt(resource: Fields, package: Json, i: nat)
    requires i < |resource|
    ensures InheritLoop(resource[..i + 1], package) == InheritStep(InheritLoop(resource[..i], package), resource[i].0, resource[i].1)
  {
    Seqs.TakeSnoc(resource, i);
    InheritLoopSnoc(resource[..i + 1], package);
  }

  /** After the loop stops at turn i on an exception, the resource dict holds what InheritLoop says. */
  lemma InheritLoopStopsAt(resource: Fields, package: Json, i: nat, res: Fields)
    requires i <= |resource| && |res| == |resource| && res[i..] == resource[i..]
    requires InheritLoop(resource[..i], package).error.Some?
    requires InheritLoop(resource[..i], package).resource == res[..i]
    ensures InheritLoop(resource, package).error.Some?
    ensures InheritLoop(resource, package).resource == res
  {
    InheritLoopStops(resource, package, i);
    Seqs.TakeDrop(res, i);
  }

  /** Once the loop has raised at turn i, the later entries only pass through unchanged. */
  lemma {:induction false} InheritLoopStops(resource: Fields, package: Json, i: nat)
    requires i <= |resource| && InheritLoop(resource[..i], package).error.Some?
    ensures var s := InheritLoop(resource[..i], package);
      InheritLoop(resource, package) == s.(resource := s.resource + resource[i..])
    decreases |resource|
  {
    if |resource| == i {
      Seqs.TakeAll(resource);
      assert resource[i..] == [];
      Seqs.AppendEmpty(InheritLoop(resource, package).resource);
    } else {
      var init := resource[..|resource| - 1];
      assert init[..i] == resource[..i];
      InheritLoopStops(init, package, i);
      InheritLoopStopsStep(resource, package, i);
    }
  }

  lemma InheritLoopStopsStep(resource: Fields, package: Json, i: nat)
    requires i < |resource| && InheritLoop(resource[..i], package).error.Some?
    requires var s := InheritLoop(resource[..i], package);
      InheritLoop(resource[..|resource| - 1], package) == s.(resource := s.resource + resource[i..|resource| - 1])
    ensures var s := InheritLoop(resource[..i], package);
      InheritLoop(resource, package) == s.(resource := s.resource + resource[i..])
  {
    var n := |resource| - 1;
    InheritLoopAfterError(resource, package);
    PassThrough(InheritLoop(resource[..n], package), InheritLoop(resource[..i], package), resource[i..n], resource[n]);
    Seqs.SliceSnoc(resource, i);
  }

  /** Moving x through after moving a through is moving a + [x] through. */
  lemma PassThrough(t: InheritState, s: InheritState, a: Fields, x: (string, Json))
    requires t == s.(resource := s.resource + a)
    ensures t.(resource := t.resource + [x]) == s.(resource := s.resource + (a + [x]))
  {
    Seqs.AppendAssoc(s.resource, a, [x]);
  }

  /** After an exception each further turn only moves its entry through. */
  lemma InheritLoopAfterError(resource: Fields, package: Json)
    requires resource != [] && InheritLoop(resource[..|resource| - 1], package).error.Some?
    ensures var s := InheritLoop(resource[..|resource| - 1], package);
      InheritLoop(resource, package) == s.(resource := s.resource + [resource[|resource| - 1]])
  {
    var (key, value) := resource[|resource| - 1];
    assert (key, value) == resource[|resource| - 1];
  }

  /** One turn moves its key through and leaves a dict behind unless it raises. */
  lemma InheritStepKeys(s: InheritState, key: string, value: Json)
    ensures Dicts.Keys(InheritStep(s, key, value).resource) == Dicts.Keys(s.resource) + [key]
    ensures InheritStep(s, key, value).error.None? ==> InheritStep(s, key, value).package.JObj?
  {
    var r := InheritStep(s, key, value).resource;
    assert r[..|s.resource|] == s.resource && r[|s.resource|].0 == key;
    Dicts.KeysSnoc(r);
  }

  /** The loop moves the resource's keys through in order and fails only on the way. */
  lemma {:induction false} InheritLoopKeys(resource: Fields, package: Json)
    ensures Dicts.Keys(InheritLoop(resource, package).resource) == Dicts.Keys(resource)
    ensures InheritLoop(resource, package).error.None? ==> InheritLoop(resource, package).package.JObj? || resource == []
  {
    if resource != [] {
      var init := resource[..|resource| - 1];
      InheritLoopKeys(init, package);
      InheritLoopSnoc(resource, package);
      InheritStepKeys(InheritLoop(init, package), resource[|resource| - 1].0, resource[|resource| - 1].1);
      Dicts.KeysSnoc(resource);
    }
  }

  /**
   * What the package dict holds under a resource key after its turn: the
   * resource's own value for a replace-list key or a non-dict value, else
   * a dict with the same keys as the resource's sub-dict.
   */
  predicate TakesResourceEntry(stored: Option<Json>, key: string, value: Json) {
    if key in Replace || !value.JObj? then stored == Some(value)
    else stored.Some? && stored.value.JObj? && Dicts.Keys(stored.value.fields) == Dicts.Keys(value.fields)
  }

  lemma InheritStepEntries(s: InheritState, key: string, value: Json, k: string)
    requires s.error.None? && s.package.JObj?
    requires InheritStep(s, key, value).error.None?
    ensures var p := InheritStep(s, key, value).package;
      p.JObj? && TakesResourceEntry(Dicts.Get(p.fields, key), key, value) &&
      (k != key ==> Dicts.Get(p.fields, k) == Dicts.Get(s.package.fields, k))
  {
    if key in Replace || !value.JObj? {
      InheritStepReplaces(s, key, value, k);
    } else {
      InheritStepMerges(s, key, value, k);
    }
  }

  lemma InheritStepReplaces(s: InheritState, key: string, value: Json, k: string)
    requires s.error.None? && s.package.JObj? && (key in Replace || !value.JObj?)
    ensures var p := InheritStep(s, key, value).package;
      p == Put(s.package, key, value) &&
      p.JObj? && TakesResourceEntry(Dicts.Get(p.fields, key), key, value) &&
      (k != key ==> Dicts.Get(p.fields, k) == Dicts.Get(s.package.fields, k))
  {
    Dicts.GetSet(s.package.fields, key, value, k);
    Dicts.GetSet(s.package.fields, key, value, key);
  }

  lemma InheritStepMerges(s: InheritState, key: string, value: Json, k: string)
    requires s.error.None? && s.package.JObj? && !(key in Replace || !value.JObj?)
    requires InheritStep(s, key, value).error.None?
    ensures var p := InheritStep(s, key, value).package;
      p.JObj? && TakesResourceEntry(Dicts.Get(p.fields, key), key, value) &&
      (k != key ==> Dicts.Get(p.fields, k) == Dicts.Get(s.package.fields, k))
  {
    var dict2 := match Dicts.Get(s.package.fields, key) case Some(d) => d case None => JObj([]);
    var merged := MergedDict(value.fields, dict2).0;
    assert InheritStep(s, key, value).package == Put(s.package, key, JObj(merged));
    Dicts.GetSet(s.package.fields, key, JObj(merged), k);
    Dicts.GetSet(s.package.fields, key, JObj(merged), key);
    MergedDictKeys(value.fields, dict2);
  }

  /**
   * What the package p holds for key k after the loop over resource:
   * the resource's decision for a key of the resource, the package's
   * own value otherwise.
   */
  predicate EntriesInherited(resource: Fields, package: Json, p: Json, k: string) {
    package.JObj? && p.JObj? &&
    (k !in Dicts.Keys(resource) ==> Dicts.Get(p.fields, k) == Dicts.Get(package.fields, k)) &&
    (forall i :: 0 <= i < |resource| && resource[i].0 == k ==> TakesResourceEntry(Dicts.Get(p.fields, k), k, resource[i].1))
  }

  lemma InheritedEntriesStep(resource: Fields, package: Json, k: string)
    requires resource != [] && Dicts.UniqueKeys(resource) && package.JObj?
    requires InheritLoop(resource, package).error.None?
    requires var init := resource[..|resource| - 1];
      EntriesInherited(init, package, InheritLoop(init, package).package, k)
    ensures EntriesInherited(resource, package, InheritLoop(resource, package).package, k)
  {
    var n := |resource| - 1;
    var init := resource[..n];
    var s := InheritLoop(init, package);
    var (key, value) := resource[n];
    assert InheritLoop(resource, package) == InheritStep(s, key, value);
    InheritStepEntries(s, key, value, k);
    Dicts.KeysSnoc(resource);
    Dicts.UniqueKeysInit(resource);
    var p := InheritLoop(resource, package).package;
    forall i | 0 <= i < |resource| && resource[i].0 == k
      ensures TakesResourceEntry(Dicts.Get(p.fields, k), k, resource[i].1)
    {
      if i < n {
        assert init[i] == resource[i];
        assert k in Dicts.Keys(init);
      }
    }
  }

  /**
   * Without an exception, every key of the resource dict holds in the
   * result what the resource decides, and a package key the resource
   * lacks keeps the package's value.
   */
  lemma {:induction false} InheritedEntries(resource: Fields, package: Json, k: string)
    requires Dicts.UniqueKeys(resource) && package.JObj?
    requires InheritLoop(resource, package).error.None?
    ensures EntriesInherited(resource, package, InheritLoop(resource, package).package, k)
  {
    if resource != [] {
      var init := resource[..|resource| - 1];
      Dicts.UniqueKeysInit(resource);
      InheritLoopErrorStays(resource, package);
      InheritedEntries(init, package, k);
      InheritedEntriesStep(resource, package, k);
    }
  }

  /** An exception raised on the way is still there at the end. */
  lemma InheritLoopErrorStays(resource: Fields, package: Json)
    requires resource != [] && InheritLoop(resource, package).error.None?
    ensures InheritLoop(resource[..|resource| - 1], package).error.None?
  {
  }

  /** Inherited agrees with the code whenever the loop does not raise. */
  lemma InheritedAgrees(resource: Fields, package: Json)
    requires InheritLoop(resource, package).error.None?
    ensures Inherited(resource, package) == InheritedAsWritten(resource, package) == InheritLoop(resource, package).package
  {
  }

  /** A value after merge_dict_lists's turn: a list has grown at its end, anything else is unchanged. */
  predicate Extends(after: Json, before: Json) {
    if before.JList? then after.JList? && |before.items| <= |after.items| && after.items[..|before.items|] == before.items
    else after == before
  }

  /** The same keys in the same order, each list value extended at its end and the rest unchanged. */
  predicate ListsExtended(after: Fields, before: Fields) {
    |after| == |before| && forall i :: 0 <= i < |before| ==> after[i].0 == before[i].0 && Extends(after[i].1, before[i].1)
  }

  /** What a resource value becomes: a sub-dict the loop merges keeps its keys and only extends its lists. */
  predicate EntryShape(after: Json, key: string, before: Json) {
    if key !in Replace && before.JObj? then after.JObj? && ListsExtended(after.fields, before.fields)
    else after == before
  }

  /** The resource dict after the loop, entry by entry against the one passed in. */
  predicate SameShape(after: Fields, before: Fields) {
    |after| == |before| &&
    forall i :: 0 <= i < |before| ==> after[i].0 == before[i].0 && EntryShape(after[i].1, before[i].0, before[i].1)
  }

  lemma ListsExtendedSnoc(after: Fields, before: Fields, x: (string, Json), y: (string, Json))
    requires ListsExtended(after, before) && x.0 == y.0 && Extends(x.1, y.1)
    ensures ListsExtended(after + [x], before + [y])
  {
  }

  lemma ExtendsItself(v: Json)
    ensures Extends(v, v)
  {
    if v.JList? {
      assert v.items[..|v.items|] == v.items;
    }
  }

  /** merge_dict_lists only extends the lists of dict1, whether or not it raises. */
  lemma {:induction false} MergedDictExtends(dict1: Fields, dict2: Json)
    ensures ListsExtended(MergedDict(dict1, dict2).0, dict1)
  {
    if dict1 != [] {
      var init := dict1[..|dict1| - 1];
      var entry := dict1[|dict1| - 1];
      MergedDictExtends(init, dict2);
      MergeStepExtends(MergedDict(init, dict2), entry, dict2);
      var m := MergeStep(MergedDict(init, dict2), entry, dict2).0;
      ListsExtendedSnoc(MergedDict(init, dict2).0, init, m[|m| - 1], entry);
      Seqs.InitLast(dict1);
      assert m == MergedDict(init, dict2).0 + [m[|m| - 1]];
    }
  }

  lemma MergeStepExtends(acc: (Fields, Option<PyError>), entry: (string, Json), dict2: Json)
    ensures var m := MergeStep(acc, entry, dict2).0;
      |m| == |acc.0| + 1 && m[..|acc.0|] == acc.0 && m[|acc.0|].0 == entry.0 && Extends(m[|acc.0|].1, entry.1)
  {
    ExtendsItself(entry.1);
    if acc.1.None? && entry.1.JList? && dict2.JObj? {
      var added := Appended(entry.1.items, AsList(Dicts.Get(dict2.fields, entry.0)));
      assert (entry.1.items + added)[..|entry.1.items|] == entry.1.items;
    }
  }

  /** One turn of the loop gives its entry the shape EntryShape describes. */
  lemma InheritStepShape(s: InheritState, key: string, value: Json)
    ensures var r := InheritStep(s, key, value).resource;
      |r| == |s.resource| + 1 && r[..|s.resource|] == s.resource && r[|s.resource|].0 == key &&
      EntryShape(r[|s.resource|].1, key, value)
  {
    if value.JObj? {
      forall i | 0 <= i < |value.fields|
        ensures Extends(value.fields[i].1, value.fields[i].1)
      {
        ExtendsItself(value.fields[i].1);
      }
      if s.error.None? && key !in Replace && s.package.JObj? {
        var dict2 := match Dicts.Get(s.package.fields, key) case Some(d) => d case None => JObj([]);
        MergedDictExtends(value.fields, dict2);
      }
    }
  }

  /** The loop keeps the resource dict's keys and order and changes no value but by merging sub-dicts. */
  lemma {:induction false} InheritLoopShape(resource: Fields, package: Json)
    ensures SameShape(InheritLoop(resource, package).resource, resource)
  {
    if resource != [] {
      var init := resource[..|resource| - 1];
      var (key, value) := resource[|resource| - 1];
      InheritLoopShape(init, package);
      InheritLoopSnoc(resource, package);
      InheritStepShape(InheritLoop(init, package), key, value);
      Seqs.InitLast(resource);
      ShapeSnoc(InheritLoop(resource, package).resource, InheritLoop(init, package).resource, init, key, value);
    }
  }

  lemma ShapeSnoc(r: Fields, done: Fields, init: Fields, key: string, value: Json)
    requires SameShape(done, init)
    requires |r| == |done| + 1 && r[..|done|] == done && r[|done|].0 == key && EntryShape(r[|done|].1, key, value)
    ensures SameShape(r, init + [(key, value)])
  {
    var before := init + [(key, value)];
    forall i | 0 <= i < |before|
      ensures r[i].0 == before[i].0 && EntryShape(r[i].1, before[i].0, before[i].1)
    {
      if i < |init| {
        assert r[i] == done[i] && before[i] == init[i];
      }
    }
  }

  /**
   * When the loop raises, the intended result is the resource dict as
   * passed in; the code returns it with the same keys in the same order,
   * where the sub-dicts merged before the exception have their lists
   * extended by package items and nothing else differs.
   */
  lemma InheritedOnError(resource: Fields, package: Json)
    requires InheritLoop(resource, package).error.Some?
    ensures Inherited(resource, package) == JObj(resource)
    ensures InheritedAsWritten(resource, package).JObj?
    ensures SameShape(InheritedAsWritten(resource, package).fields, resource)
  {
    InheritLoopShape(resource, package);
  }

  /** A package that is not a dict makes the loop raise at the first key. */
  lemma InheritFromNonDictFails(resource: Fields, package: Json)
    requires resource != [] && !package.JObj?
    ensures InheritLoop(resource, package).error.Some?
    ensures Inherited(resource, package) == JObj(resource)
  {
    InheritLoopKeys(resource, package);
  }

  /** A resource with one title and one description, and a package whose descriptions are plain text. */
  function ExampleResource(): Fields {
    [("titles", JObj([("title", JList([JStr("A")]))])), ("descriptions", JObj([("description", JList([JStr("D")]))]))]
  }

  function ExamplePackage(): Json {
    JObj([("titles", JObj([("title", JList([JStr("B")]))])), ("descriptions", JStr("text"))])
  }

  lemma ExampleTitlesMerged()
    ensures var merged := JObj([("title", JList([JStr("A"), JStr("B")]))]);
      InheritLoop(ExampleResource()[..1], ExamplePackage()) ==
        InheritState([("titles", merged)], Put(ExamplePackage(), "titles", merged), None)
  {
    var a, b := JStr("A"), JStr("B");
    var titles := [("title", JList([a]))];
    var pkgTitles := JObj([("title", JList([b]))]);
    assert !PyEq(b, [a][0]);
    AppendedOne([a], b);
    assert MergedList([a], [b]) == [a, b];
    assert AsList(Dicts.Get(pkgTitles.fields, "title")) == [b];
    assert MergedEntry("title", JList([a]), pkgTitles) == Ok(JList([a, b]));
    assert titles[..0] == [];
    assert MergedDict(titles, pkgTitles) == ([] + [("title", JList([a, b]))], None);
    TitlesMerged();
    var first := ExampleResource()[..1];
    assert first == [("titles", JObj(titles))];
    assert first[..0] == [];
    assert Dicts.Get(ExamplePackage().fields, "titles") == Some(pkgTitles);
    assert InheritLoop(first, ExamplePackage()) == InheritStep(InheritState([], ExamplePackage(), None), "titles", JObj(titles));
    var merged := JObj([("title", JList([a, b]))]);
    assert [] + [("title", JList([a, b]))] == merged.fields;
    assert InheritStep(InheritState([], ExamplePackage(), None), "titles", JObj(titles)) ==
      InheritState([("titles", merged)], Put(ExamplePackage(), "titles", merged), None);
  }

  lemma DescriptionsMerged()
    ensures "descriptions" !in Replace
  {
    assert "descriptions"[0] == 'd';
    assert forall i :: 0 <= i < |Replace| ==> Replace[i][0] != 'd' || |Replace[i]| != 12;
  }

  lemma TitlesMerged()
    ensures "titles" !in Replace
  {
    assert forall i :: 0 <= i < |Replace| ==> |Replace[i]| != 6;
  }

  /** The package's plain-text descriptions make merging the resource's descriptions raise. */
  lemma ExampleDescriptionsRaise(s: InheritState)
    requires s.error.None? && s.package.JObj?
    requires Dicts.Get(s.package.fields, "descriptions") == Some(JStr("text"))
    ensures InheritStep(s, "descriptions", ExampleResource()[1].1) ==
      InheritState(s.resource + [ExampleResource()[1]], s.package, Some(AttributeError))
  {
    var descriptions := [("description", JList([JStr("D")]))];
    assert ExampleResource()[1] == ("descriptions", JObj(descriptions));
    assert descriptions[..0] == [];
    assert MergedDict(descriptions, JStr("text")) == ([] + descriptions, Some(AttributeError));
    assert [] + descriptions == descriptions;
    DescriptionsMerged();
    var dict2 := match Dicts.Get(s.package.fields, "descriptions") case Some(d) => d case None => JObj([]);
    assert dict2 == JStr("text");
  }

  /**
   * The as-written except branch returns a resource dict that the loop has
   * already changed: its titles gained the package's title before the
   * package's plain-text descriptions made merge_dict_lists raise.
   */
  lemma InheritPartialMerge()
    ensures InheritedAsWritten(ExampleResource(), ExamplePackage()) ==
      JObj([("titles", JObj([("title", JList([JStr("A"), JStr("B")]))])), ExampleResource()[1]])
    ensures Inherited(ExampleResource(), ExamplePackage()) == JObj(ExampleResource())
  {
    var merged := JObj([("title", JList([JStr("A"), JStr("B")]))]);
    ExampleLoopRaises(ExampleResource(), ExamplePackage(), merged);
    assert [("titles", merged)] + [ExampleResource()[1]] == [("titles", merged), ExampleResource()[1]];
  }

  lemma ExampleLoopRaises(resource: Fields, package: Json, merged: Json)
    requires resource == ExampleResource() && package == ExamplePackage()
    requires merged == JObj([("title", JList([JStr("A"), JStr("B")]))])
    ensures InheritLoop(resource, package).error.Some?
    ensures InheritLoop(resource, package).resource == [("titles", merged)] + [resource[1]]
  {
    InheritLoopSnoc(resource, package);
    ExampleTitlesMerged();
    ExampleKeepsDescriptions(merged);
    ExampleDescriptionsRaise(InheritState([("titles", merged)], Put(package, "titles", merged), None));
  }

  /** Storing the merged titles leaves the package's plain-text descriptions in place. */
  lemma ExampleKeepsDescriptions(merged: Json)
    ensures Put(ExamplePackage(), "titles", merged).JObj?
    ensures Dicts.Get(Put(ExamplePackage(), "titles", merged).fields, "descriptions") == Some(JStr("text"))
  {
    var package := ExamplePackage();
    Dicts.GetSet(package.fields, "titles", merged, "descriptions");
  }

  lemma InheritLoopSnoc(resource: Fields, package: Json)
    requires resource != []
    ensures InheritLoop(resource, package) ==
      InheritStep(InheritLoop(resource[..|resource| - 1], package), resource[|resource| - 1].0, resource[|resource| - 1].1)
  {
  }

  // ---------------------------------------------------------------------
  // The size entry

  /**
   * The '#text' of the resource's size entry (4.3 converter), None when it
   * has none; TypeError from the debug line when 'resource_size' holds a
   * non-string.  Failures inside the try around json.loads give no entry.
   */
  function SizeText(libs: Libs, resource: Fields): (r: Result<Option<string>>) {
    var resourceSize := Dicts.Get(resource, "resource_size");
    var size := Dicts.Get(resource, "size");
    if resourceSize.Some? && !resourceSize.value.JStr? then Err(TypeError)
    else if size.Some? && Truthy(size.value) then Ok(Some(PyStr(size.value, libs.repr) + " bytes"))
    else if resourceSize.None? || resourceSize.value.s == "" then Ok(None)
    else match libs.loads(resourceSize.value.s)
      case None => Ok(None)
      case Some(obj) =>
        if !obj.JObj? then Ok(None)
        else
          var value := match Dicts.Get(obj.fields, "size_value") case Some(v) => v case None => JStr("0");
          var unit := match Dicts.Get(obj.fields, "size_unit") case Some(u) => u case None => JStr("KB");
          if value.JStr? && unit.JStr? then Ok(Some(value.s + " " + Text.Upper(unit.s))) else Ok(None)
  }

  lemma UpperKB()
    ensures Text.Upper("KB") == "KB"
  {
    var kb := "KB";
    assert Text.Upper(kb)[0] == 'K' && Text.Upper(kb)[1] == 'B';
  }

  /** A non-empty 'size' gives str(size) + ' bytes', ahead of any 'resource_size'. */
  lemma SizeFromBytes(libs: Libs, resource: Fields, n: int)
    requires Dicts.Get(resource, "size") == Some(JInt(n)) && n != 0
    requires Dicts.Get(resource, "resource_size").None? || Dicts.Get(resource, "resource_size").value.JStr?
    ensures SizeText(libs, resource) == Ok(Some(Text.IntToString(n) + " bytes"))
  {
    assert Truthy(JInt(n));
    assert PyStr(JInt(n), libs.repr) == Text.IntToString(n);
  }

  /** Without 'size', the resource_size JSON gives value and upper-cased unit, defaulting to '0' and 'KB'. */
  lemma SizeFromResourceSize(libs: Libs, resource: Fields, text: string, fields: Fields)
    requires Dicts.Get(resource, "size").None? && Dicts.Get(resource, "resource_size") == Some(JStr(text))
    requires text != "" && libs.loads(text) == Some(JObj(fields))
    requires forall k :: k in Dicts.Keys(fields) ==> k == "size_value" || k == "size_unit"
    requires forall i :: 0 <= i < |fields| ==> fields[i].1.JStr?
    ensures var value := Dicts.Get(fields, "size_value");
      var unit := Dicts.Get(fields, "size_unit");
      SizeText(libs, resource) == Ok(Some(
        (if value.Some? then value.value.s else "0") + " " + (if unit.Some? then Text.Upper(unit.value.s) else "KB")))
  {
    var value := Dicts.Get(fields, "size_value");
    var unit := Dicts.Get(fields, "size_unit");
    var v := match value case Some(x) => x case None => JStr("0");
    var u := match unit case Some(x) => x case None => JStr("KB");
    assert v.JStr? && u.JStr? by {
      if value.Some? { var i :| 0 <= i < |fields| && fields[i] == ("size_value", value.value); }
      if unit.Some? { var i :| 0 <= i < |fields| && fields[i] == ("size_unit", unit.value); }
    }
    UpperKB();
    assert SizeText(libs, resource) == Ok(Some(v.s + " " + Text.Upper(u.s)));
  }

  /** A 'resource_size' that is not a string fails the whole conversion at the debug line. */
  lemma SizeRejectsNonString(libs: Libs, resource: Fields, v: Json)
    requires Dicts.Get(resource, "resource_size") == Some(v) && !v.JStr?
    ensures SizeText(libs, resource) == Err(TypeError)
  {
  }

  /** The 3.1 converter: 'size' + ' bytes' with no str(), so a numeric size raises TypeError. */
  function OldSizeText(resource: Fields): (r: Result<Option<string>>)
    ensures r.Err? <==>
      (Dicts.Get(resource, "size").Some? && Truthy(Dicts.Get(resource, "size").value) &&
       !Dicts.Get(resource, "size").value.JStr?)
    ensures r == Ok(None) <==> Dicts.Get(resource, "size").None? || !Truthy(Dicts.Get(resource, "size").value)
  {
    var size: Option<Json> := Dicts.Get(resource, "size");
    match size
    case Some(JStr(s)) => if s != "" then Ok(Some(s + " bytes")) else Ok(None)
    case Some(v) => if Truthy(v) then Err(TypeError) else Ok(None)
    case None => Ok(None)
  }
}

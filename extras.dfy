/**
 * The helpers the ISO 19139 and GCMD DIF converters share, each written
 * out in both converters: _extras_as_dict turns CKAN's list of
 * {'key', 'value'} extras into a dict, and _get_ignore_case looks a tag up
 * among a dict's keys ignoring case and, by default, spaces.  Dict keys
 * here are arbitrary values, since an extra's 'key' is whatever it holds.
 */
module Extras {
  import opened Wrappers
  import opened Json
  import Dicts
  import Text
  import Seqs

  /** A Python dict with keys of any hashable value, in the order the model fixes for it (see Dicts). */
  type PyDict = seq<(Json, Json)>

  /** A string-keyed dict seen as a PyDict. */
  function AsPyDict(fields: seq<(string, Json)>): (d: PyDict)
    ensures |d| == |fields|
    ensures forall i :: 0 <= i < |d| ==> d[i] == (JStr(fields[i].0), fields[i].1)
  {
    seq(|fields|, i requires 0 <= i < |fields| => (JStr(fields[i].0), fields[i].1))
  }

  /** d.get(key, default) */
  function GetOrDefault(d: PyDict, key: Json, default: Json): Json {
    match Dicts.Get(d, key)
    case Some(v) => v
    case None => default
  }

  // ---------------------------------------------------------------------
  // _extras_as_dict

  /** extra.get('key') and extra.get('value') on an extra that is a dict. */
  function KeyOf(extra: Json): Json requires extra.JObj? {
    match Dicts.Get(extra.fields, "key") case Some(k) => k case None => JNull
  }

  function ValueOf(extra: Json): Json requires extra.JObj? {
    match Dicts.Get(extra.fields, "value") case Some(v) => v case None => JNull
  }

  /**
   * The dict built from the extras visited so far: each one stores its
   * 'value' under its 'key' (None when missing).  An extra that is not a
   * dict has no .get (AttributeError); a list or dict key is unhashable
   * (TypeError).
   */
  function ExtrasDict(extras: seq<Json>): Result<PyDict> {
    if extras == [] then Ok([])
    else
      var prev := ExtrasDict(extras[..|extras| - 1]);
      var entry := ExtraEntry(extras[|extras| - 1]);
      if prev.Err? then prev
      else if entry.Err? then Err(entry.error)
      else Ok(Dicts.Set(prev.value, entry.value.0, entry.value.1))
  }

  /** The key and value one extra stores. */
  function ExtraEntry(extra: Json): (r: Result<(Json, Json)>)
    ensures r.Ok? <==> extra.JObj? && !KeyOf(extra).JList? && !KeyOf(extra).JObj?
    ensures r.Ok? ==> r.value == (KeyOf(extra), ValueOf(extra))
  {
    if !extra.JObj? then Err(AttributeError)
    else if KeyOf(extra).JList? || KeyOf(extra).JObj? then Err(TypeError)
    else Ok((KeyOf(extra), ValueOf(extra)))
  }

  /** Once an extra has raised, the later ones are not looked at. */
  lemma {:induction false} ExtrasDictStops(extras: seq<Json>, i: nat)
    requires i <= |extras| && ExtrasDict(extras[..i]).Err?
    ensures ExtrasDict(extras) == ExtrasDict(extras[..i])
    decreases |extras| - i
  {
    if i < |extras| {
      var next := extras[..i + 1];
      assert next[..i] == extras[..i];
      ExtrasDictStops(extras, i + 1);
    } else {
      assert extras[..i] == extras;
    }
  }

  /** _extras_as_dict(extras), with `for extra in extras` over any value. */
  method ExtrasAsDict(extras: Json) returns (r: Result<PyDict>)
    ensures r == (var xs :- Iterate(extras); ExtrasDict(xs))
  {
    var xs :- Iterate(extras);
    var extrasDict: PyDict := [];
    for i := 0 to |xs|
      invariant ExtrasDict(xs[..i]) == Ok(extrasDict)
    {
      assert xs[..i + 1][..i] == xs[..i];
      var extra := xs[i];
      if !extra.JObj? {
        ExtrasDictStops(xs, i + 1);
        return Err(AttributeError);
      }
      var key, value := KeyOf(extra), ValueOf(extra);
      if key.JList? || key.JObj? {
        ExtrasDictStops(xs, i + 1);
        return Err(TypeError);
      }
      extrasDict := Dicts.Set(extrasDict, key, value);
    }
    assert xs[..|xs|] == xs;
    return Ok(extrasDict);
  }

  /** Every extra is a dict with a hashable key. */
  ghost predicate EntriesOk(extras: seq<Json>) {
    forall i :: 0 <= i < |extras| ==> ExtraEntry(extras[i]).Ok?
  }

  /** Building the dict fails only on an extra that is not a dict or has an unhashable key. */
  lemma {:induction false} ExtrasDictSucceeds(extras: seq<Json>)
    ensures ExtrasDict(extras).Ok? <==> EntriesOk(extras)
  {
    if extras != [] {
      ExtrasDictSucceeds(extras[..|extras| - 1]);
      ExtrasDictOkSnoc(extras);
      EntriesOkSnoc(extras);
    }
  }

  lemma ExtrasDictOkSnoc(extras: seq<Json>)
    requires extras != []
    ensures var n := |extras| - 1;
      ExtrasDict(extras).Ok? <==> ExtrasDict(extras[..n]).Ok? && ExtraEntry(extras[n]).Ok?
  {
  }

  lemma EntriesOkSnoc(extras: seq<Json>)
    requires extras != []
    ensures var n := |extras| - 1;
      EntriesOk(extras) <==> EntriesOk(extras[..n]) && ExtraEntry(extras[n]).Ok?
  {
    var init := extras[..|extras| - 1];
    assert forall i :: 0 <= i < |init| ==> init[i] == extras[i];
  }

  /**
   * The last extra with a given key decides its value, and the dict's keys
   * are exactly the extras' keys.
   */
  lemma {:induction false} ExtrasLastWins(extras: seq<Json>, i: nat)
    requires ExtrasDict(extras).Ok? && i < |extras| && extras[i].JObj?
    requires forall j :: i < j < |extras| && extras[j].JObj? ==> KeyOf(extras[j]) != KeyOf(extras[i])
    ensures Dicts.Get(ExtrasDict(extras).value, KeyOf(extras[i])) == Some(ValueOf(extras[i]))
  {
    var n := |extras| - 1;
    var init := extras[..n];
    ExtrasDictSnoc(extras);
    StoredUnlessReassigned(ExtrasDict(init).value, KeyOf(extras[n]), ValueOf(extras[n]), KeyOf(extras[i]));
    if i < n {
      LaterKeysInPrefix(extras, i);
      ExtrasLastWins(init, i);
    }
  }

  /** A key other than the one assigned keeps its value. */
  lemma StoredUnlessReassigned(d: PyDict, key: Json, value: Json, k: Json)
    ensures k == key ==> Dicts.Get(Dicts.Set(d, key, value), k) == Some(value)
    ensures k != key ==> Dicts.Get(Dicts.Set(d, key, value), k) == Dicts.Get(d, k)
  {
    Dicts.GetSet(d, key, value, k);
  }

  lemma LaterKeysInPrefix(extras: seq<Json>, i: nat)
    requires i < |extras| - 1 && extras[i].JObj?
    requires forall j :: i < j < |extras| && extras[j].JObj? ==> KeyOf(extras[j]) != KeyOf(extras[i])
    ensures var init := extras[..|extras| - 1];
      init[i] == extras[i] &&
      forall j :: i < j < |init| && init[j].JObj? ==> KeyOf(init[j]) != KeyOf(init[i])
  {
  }

  /** The dict after the last extra is the dict before it with that extra's entry assigned. */
  lemma ExtrasDictSnoc(extras: seq<Json>)
    requires extras != [] && ExtrasDict(extras).Ok?
    ensures var n := |extras| - 1;
      ExtrasDict(extras[..n]).Ok? && extras[n].JObj? &&
      ExtrasDict(extras).value == Dicts.Set(ExtrasDict(extras[..n]).value, KeyOf(extras[n]), ValueOf(extras[n]))
  {
  }

  /** Some extra that is a dict has key k. */
  ghost predicate HasExtraKey(extras: seq<Json>, k: Json) {
    exists i :: 0 <= i < |extras| && extras[i].JObj? && KeyOf(extras[i]) == k
  }

  /** The dict's keys are exactly the keys of the extras. */
  lemma {:induction false} ExtrasDictKeys(extras: seq<Json>, k: Json)
    requires ExtrasDict(extras).Ok?
    ensures k in Dicts.Keys(ExtrasDict(extras).value) <==> HasExtraKey(extras, k)
  {
    if extras != [] {
      ExtrasDictKeysSnoc(extras, k);
      ExtrasDictKeys(extras[..|extras| - 1], k);
      HasExtraKeySnoc(extras, k);
    }
  }

  lemma ExtrasDictKeysSnoc(extras: seq<Json>, k: Json)
    requires extras != [] && ExtrasDict(extras).Ok?
    ensures var n := |extras| - 1;
      ExtrasDict(extras[..n]).Ok? && extras[n].JObj? &&
      (k in Dicts.Keys(ExtrasDict(extras).value) <==> k in Dicts.Keys(ExtrasDict(extras[..n]).value) || k == KeyOf(extras[n]))
  {
    ExtrasDictSnoc(extras);
  }

  lemma HasExtraKeySnoc(extras: seq<Json>, k: Json)
    requires extras != []
    ensures var n := |extras| - 1;
      HasExtraKey(extras, k) <==> HasExtraKey(extras[..n], k) || (extras[n].JObj? && KeyOf(extras[n]) == k)
  {
    var n := |extras| - 1;
    if HasExtraKey(extras, k) {
      ExtraKeyInInitOrLast(extras, k);
    }
    if HasExtraKey(extras[..n], k) {
      ExtraKeyInInit(extras, k);
    }
    if extras[n].JObj? && KeyOf(extras[n]) == k {
      assert 0 <= n < |extras| && extras[n].JObj? && KeyOf(extras[n]) == k;
    }
  }

  lemma ExtraKeyInInitOrLast(extras: seq<Json>, k: Json)
    requires extras != [] && HasExtraKey(extras, k)
    ensures var n := |extras| - 1; HasExtraKey(extras[..n], k) || (extras[n].JObj? && KeyOf(extras[n]) == k)
  {
    var n := |extras| - 1;
    var i :| 0 <= i < |extras| && extras[i].JObj? && KeyOf(extras[i]) == k;
    if i < n {
      assert extras[..n][i] == extras[i];
    }
  }

  lemma ExtraKeyInInit(extras: seq<Json>, k: Json)
    requires extras != [] && HasExtraKey(extras[..|extras| - 1], k)
    ensures HasExtraKey(extras, k)
  {
    var init := extras[..|extras| - 1];
    var i :| 0 <= i < |init| && init[i].JObj? && KeyOf(init[i]) == k;
    assert extras[i] == init[i];
  }

  // ---------------------------------------------------------------------
  // _get_ignore_case

  /** s.lower(), with the spaces removed when ignore_blanks is set. */
  function Fold(s: string, ignoreBlanks: bool): string {
    if ignoreBlanks then Text.Remove(Text.Lower(s), ' ') else Text.Lower(s)
  }

  /**
   * The first key whose folded form is the folded tag, None when there is
   * none; AttributeError at a key before it that is not a string.
   */
  function MatchingKey(keys: seq<Json>, tagFolded: string, ignoreBlanks: bool): (r: Result<Option<string>>)
    ensures r.Ok? && r.value.Some? ==> JStr(r.value.value) in keys && Fold(r.value.value, ignoreBlanks) == tagFolded
  {
    if keys == [] then Ok(None)
    else if !keys[0].JStr? then Err(AttributeError)
    else if Fold(keys[0].s, ignoreBlanks) == tagFolded then Ok(Some(keys[0].s))
    else MatchingKey(keys[1..], tagFolded, ignoreBlanks)
  }

  /**
   * _get_ignore_case as the code behaves: the value under the matching
   * key, or, when none matches, whatever d holds under '' (the initial
   * tag_key), else the default: None in the ISO converter, '' in the DIF
   * converter.
   */
  function IgnoreCaseAsWritten(d: PyDict, tag: string, ignoreBlanks: bool, default: Json): Result<Json> {
    var found :- MatchingKey(Dicts.Keys(d), Fold(tag, ignoreBlanks), ignoreBlanks);
    var tagKey := if found.Some? then found.value else "";
    Ok(GetOrDefault(d, JStr(tagKey), default))
  }

  /** _get_ignore_case as intended: the default when no key matches. */
  function IgnoreCase(d: PyDict, tag: string, ignoreBlanks: bool, default: Json): Result<Json> {
    var found :- MatchingKey(Dicts.Keys(d), Fold(tag, ignoreBlanks), ignoreBlanks);
    if found.Some? then Ok(GetOrDefault(d, JStr(found.value), default)) else Ok(default)
  }

  /** _get_ignore_case(data_dict, tag, ignore_blanks), the loop with its break. */
  method GetIgnoreCase(d: PyDict, tag: string, ignoreBlanks: bool, default: Json) returns (r: Result<Json>)
    ensures r == IgnoreCaseAsWritten(d, tag, ignoreBlanks, default)
  {
    var tagLower := Fold(tag, ignoreBlanks);
    var keys := Dicts.Keys(d);
    var tagKey := "";
    var i := 0;
    while i < |keys|
      invariant 0 <= i <= |keys|
      invariant MatchingKey(keys, tagLower, ignoreBlanks) == MatchingKey(keys[i..], tagLower, ignoreBlanks)
    {
      var key := keys[i];
      MatchingKeyUnfold(keys, tagLower, ignoreBlanks, i);
      if !key.JStr? {
        return Err(AttributeError);
      }
      var keyLower := Fold(key.s, ignoreBlanks);
      if keyLower == tagLower {
        tagKey := key.s;
        break;
      }
      i := i + 1;
    }
    return Ok(GetOrDefault(d, JStr(tagKey), default));
  }

  /** One turn of the search: the key at i raises, matches, or hands over to the keys after it. */
  lemma MatchingKeyUnfold(keys: seq<Json>, t: string, ignoreBlanks: bool, i: nat)
    requires i < |keys|
    ensures var m := MatchingKey(keys[i..], t, ignoreBlanks);
      && (!keys[i].JStr? ==> m == Err(AttributeError))
      && (keys[i].JStr? && Fold(keys[i].s, ignoreBlanks) == t ==> m == Ok(Some(keys[i].s)))
      && (keys[i].JStr? && Fold(keys[i].s, ignoreBlanks) != t ==> m == MatchingKey(keys[i + 1..], t, ignoreBlanks))
  {
    assert keys[i..][0] == keys[i];
    assert keys[i..][1..] == keys[i + 1..];
  }

  /** Tags equal after folding look up the same value. */
  lemma IgnoreCaseFoldsTag(d: PyDict, tag1: string, tag2: string, ignoreBlanks: bool, default: Json)
    requires Fold(tag1, ignoreBlanks) == Fold(tag2, ignoreBlanks)
    ensures IgnoreCaseAsWritten(d, tag1, ignoreBlanks, default) == IgnoreCaseAsWritten(d, tag2, ignoreBlanks, default)
    ensures IgnoreCase(d, tag1, ignoreBlanks, default) == IgnoreCase(d, tag2, ignoreBlanks, default)
  {
  }

  /**
   * When the i-th key is the first string key that folds like the tag,
   * both versions return its value.
   */
  lemma {:induction false} IgnoreCaseFindsFirst(d: PyDict, tag: string, ignoreBlanks: bool, default: Json, i: nat)
    requires i < |d| && d[i].0.JStr? && Fold(d[i].0.s, ignoreBlanks) == Fold(tag, ignoreBlanks)
    requires forall j :: 0 <= j < i ==> d[j].0.JStr? && Fold(d[j].0.s, ignoreBlanks) != Fold(tag, ignoreBlanks)
    ensures IgnoreCase(d, tag, ignoreBlanks, default) == Ok(d[i].1)
    ensures IgnoreCaseAsWritten(d, tag, ignoreBlanks, default) == Ok(d[i].1)
  {
    var t := Fold(tag, ignoreBlanks);
    MatchingKeyAt(Dicts.Keys(d), t, ignoreBlanks, i);
    GetFirst(d, JStr(d[i].0.s), i);
  }

  lemma {:induction false} MatchingKeyAt(keys: seq<Json>, t: string, ignoreBlanks: bool, i: nat)
    requires i < |keys| && keys[i].JStr? && Fold(keys[i].s, ignoreBlanks) == t
    requires forall j :: 0 <= j < i ==> keys[j].JStr? && Fold(keys[j].s, ignoreBlanks) != t
    ensures MatchingKey(keys, t, ignoreBlanks) == Ok(Some(keys[i].s))
  {
    if i > 0 {
      MatchingKeyAt(keys[1..], t, ignoreBlanks, i - 1);
    }
  }

  /** d.get(k) is the value of the first entry whose key is k. */
  lemma {:induction false} GetFirst(d: PyDict, k: Json, i: nat)
    requires i < |d| && d[i].0 == k && forall j :: 0 <= j < i ==> d[j].0 != k
    ensures Dicts.Get(d, k) == Some(d[i].1)
  {
    if i > 0 {
      GetFirst(d[1..], k, i - 1);
    }
  }

  /** With string keys none of which matches, the intended lookup gives the default. */
  lemma {:induction false} IgnoreCaseMissing(d: PyDict, tag: string, ignoreBlanks: bool, default: Json)
    requires forall j :: 0 <= j < |d| ==> d[j].0.JStr? && Fold(d[j].0.s, ignoreBlanks) != Fold(tag, ignoreBlanks)
    ensures IgnoreCase(d, tag, ignoreBlanks, default) == Ok(default)
  {
    MatchingKeyNone(Dicts.Keys(d), Fold(tag, ignoreBlanks), ignoreBlanks);
  }

  lemma {:induction false} MatchingKeyNone(keys: seq<Json>, t: string, ignoreBlanks: bool)
    requires forall j :: 0 <= j < |keys| ==> keys[j].JStr? && Fold(keys[j].s, ignoreBlanks) != t
    ensures MatchingKey(keys, t, ignoreBlanks) == Ok(None)
  {
    if keys != [] {
      MatchingKeyNone(keys[1..], t, ignoreBlanks);
    }
  }

  /** Over string keys the lookup never raises. */
  lemma {:induction false} MatchingKeyStringKeys(keys: seq<Json>, t: string, ignoreBlanks: bool)
    requires forall j :: 0 <= j < |keys| ==> keys[j].JStr?
    ensures MatchingKey(keys, t, ignoreBlanks).Ok?
  {
    if keys != [] {
      MatchingKeyStringKeys(keys[1..], t, ignoreBlanks);
    }
  }

  /** A dict whose keys are all strings, as a CKAN package dict's are, is searched without error. */
  lemma IgnoreCaseStringKeys(d: PyDict, tag: string, ignoreBlanks: bool, default: Json)
    requires forall j :: 0 <= j < |d| ==> d[j].0.JStr?
    ensures IgnoreCase(d, tag, ignoreBlanks, default).Ok?
    ensures IgnoreCaseAsWritten(d, tag, ignoreBlanks, default).Ok?
  {
    MatchingKeyStringKeys(Dicts.Keys(d), Fold(tag, ignoreBlanks), ignoreBlanks);
  }

  /**
   * The '' tag_key the loop starts from is looked up when nothing matches:
   * an extra with an empty key answers for every unmatched tag.
   */
  lemma IgnoreCaseEmptyKeyAnswers()
    ensures IgnoreCaseAsWritten([(JStr(""), JStr("x"))], "purpose", true, JNull) == Ok(JStr("x"))
    ensures IgnoreCase([(JStr(""), JStr("x"))], "purpose", true, JNull) == Ok(JNull)
  {
    var d := [(JStr(""), JStr("x"))];
    assert Dicts.Keys(d) == [JStr("")];
    assert Fold("", true) == "";
    assert Fold("purpose", true) != "" by {
      assert |Fold("purpose", true)| > 0 by {
        assert Text.Lower("purpose")[0] == 'p';
        assert Text.Lower("purpose") == ['p'] + Text.Lower("purpose")[1..];
      }
    }
    assert [JStr("")][1..] == [];
  }

  // ---------------------------------------------------------------------
  // Keywords from tags (get_keywords / _get_keywords)

  /** tag.get('display_name', '').upper(); AttributeError when tag is not a dict or the name not a string. */
  function TagName(tag: Json): (r: Result<string>)
    ensures r.Err? ==> r.error == AttributeError
    ensures r.Ok? <==> tag.JObj? && (!HasKey(tag, "display_name") || Lookup(tag, "display_name").value.JStr?)
    ensures r.Ok? && HasKey(tag, "display_name") ==> r.value == Text.Upper(Lookup(tag, "display_name").value.s)
    ensures r.Ok? && !HasKey(tag, "display_name") ==> r.value == ""
  {
    var name :- GetOr(tag, "display_name", JStr(""));
    if name.JStr? then Ok(Text.Upper(name.s)) else Err(AttributeError)
  }

  /** The upper-cased display names of the tags visited so far, in order. */
  function TagNames(tags: seq<Json>): (r: Result<seq<string>>)
    ensures r.Err? ==> r.error == AttributeError
    ensures r.Ok? <==> forall i :: 0 <= i < |tags| ==> TagName(tags[i]).Ok?
    ensures r.Ok? ==> |r.value| == |tags| && forall i :: 0 <= i < |tags| ==> r.value[i] == TagName(tags[i]).value
  {
    if tags == [] then Ok([])
    else
      var prev := TagNames(tags[..|tags| - 1]);
      var name := TagName(tags[|tags| - 1]);
      if prev.Err? then
        TagFailsBefore(tags, tags[..|tags| - 1]);
        prev
      else if name.Err? then Err(name.error)
      else
        TagNamesSnoc(tags, tags[..|tags| - 1], prev.value, name.value);
        Ok(prev.value + [name.value])
  }

  /** A tag that fails among the earlier ones fails among all of them. */
  lemma TagFailsBefore(tags: seq<Json>, init: seq<Json>)
    requires tags != [] && init == tags[..|tags| - 1]
    requires !forall i :: 0 <= i < |init| ==> TagName(init[i]).Ok?
    ensures !forall i :: 0 <= i < |tags| ==> TagName(tags[i]).Ok?
  {
    var i :| 0 <= i < |init| && TagName(init[i]).Err?;
    assert init[i] == tags[i];
  }

  /** The names of the earlier tags followed by the last tag's name are the names of all of them. */
  lemma TagNamesSnoc(tags: seq<Json>, init: seq<Json>, prev: seq<string>, name: string)
    requires tags != [] && init == tags[..|tags| - 1] && TagName(tags[|tags| - 1]) == Ok(name)
    requires |prev| == |init| && forall i :: 0 <= i < |init| ==> TagName(init[i]).Ok? && prev[i] == TagName(init[i]).value
    ensures forall i :: 0 <= i < |tags| ==> TagName(tags[i]).Ok? && (prev + [name])[i] == TagName(tags[i]).value
  {
    forall i | 0 <= i < |tags|
      ensures TagName(tags[i]).Ok? && (prev + [name])[i] == TagName(tags[i]).value
    {
      if i < |init| {
        assert init[i] == tags[i];
      }
    }
  }

  /** One turn of a loop over the tags: the next tag either fails the whole list or extends the names. */
  lemma TagNamesTurn(tags: seq<Json>, i: nat, prev: seq<string>)
    requires i < |tags| && TagNames(tags[..i]) == Ok(prev)
    ensures TagName(tags[i]).Err? ==> TagNames(tags).Err?
    ensures TagName(tags[i]).Ok? ==> TagNames(tags[..i + 1]) == Ok(prev + [TagName(tags[i]).value])
  {
    var init := tags[..i + 1];
    Seqs.TakeSnoc(tags, i);
    assert init[|init| - 1] == tags[i];
    if TagName(tags[i]).Err? {
      assert !(forall j :: 0 <= j < |tags| ==> TagName(tags[j]).Ok?);
    }
  }

  /** The keyword names of a dataset dict: its 'tags' (default []), each as its upper-cased display name. */
  function KeywordNames(dataDict: Json): Result<seq<string>> {
    var tags :- GetOr(dataDict, "tags", JList([]));
    var xs :- Iterate(tags);
    TagNames(xs)
  }
}

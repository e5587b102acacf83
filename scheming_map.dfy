/**
 * The schema map of the scheming converters: for one output format, which
 * CKAN field (or 'field.subfield') each format tag is read from, built
 * from the ckanext-scheming field list by _map_fields; and _joinTags,
 * which builds the dotted tags the map is keyed by.
 */
module SchemaMapping {
  import opened Wrappers
  import Dicts
  import Text
  import Seqs

  /** A subfield of a composite scheming field: its CKAN name and its tag per output format. */
  datatype Subfield = Subfield(fieldName: string, tags: map<string, string>)

  /** A scheming field: its CKAN name, its tag per output format and its subfields. */
  datatype SchemaField = SchemaField(fieldName: string, tags: map<string, string>, subfields: seq<Subfield>)

  /** field.get(format_name, False), with the absent tag written as the falsy ''. */
  function Tag(tags: map<string, string>, formatName: string): string {
    if formatName in tags then tags[formatName] else ""
  }

  /**
   * A value of the schema map: {field_name: ...}, plus, for a field that
   * has a tag of its own, 'subfields' mapping each subfield tag to the
   * CKAN subfield name.  None: the entry has no 'subfields' key.
   */
  datatype MapEntry = MapEntry(fieldName: string, subfields: Option<seq<(string, string)>>)

  type SchemaMap = seq<(string, MapEntry)>

  /** The 'subfields' dict of a tagged field: the tagged subfields' names under their tags. */
  function SubfieldMap(subs: seq<Subfield>, formatName: string): seq<(string, string)>
    decreases |subs|
  {
    if subs == [] then []
    else
      var acc := SubfieldMap(subs[..|subs| - 1], formatName);
      var s := subs[|subs| - 1];
      var t := Tag(s.tags, formatName);
      if t != "" then Dicts.Set(acc, t, s.fieldName) else acc
  }

  /** The top-level 'field.subfield' entries an untagged field's tagged subfields add to acc. */
  function CompositeEntries(acc: SchemaMap, fieldName: string, subs: seq<Subfield>, formatName: string): SchemaMap
    decreases |subs|
  {
    if subs == [] then acc
    else
      var m := CompositeEntries(acc, fieldName, subs[..|subs| - 1], formatName);
      var s := subs[|subs| - 1];
      var t := Tag(s.tags, formatName);
      if t != "" then Dicts.Set(m, t, MapEntry(fieldName + "." + s.fieldName, None)) else m
  }

  /** What one field of the schema adds to the map. */
  function MapField(acc: SchemaMap, f: SchemaField, formatName: string): SchemaMap {
    var t := Tag(f.tags, formatName);
    if t != "" then Dicts.Set(acc, t, MapEntry(f.fieldName, Some(SubfieldMap(f.subfields, formatName))))
    else CompositeEntries(acc, f.fieldName, f.subfields, formatName)
  }

  /** The map _map_fields builds from the fields of schema, in order. */
  function MapFieldsOf(schema: seq<SchemaField>, formatName: string): SchemaMap
    decreases |schema|
  {
    if schema == [] then []
    else MapField(MapFieldsOf(schema[..|schema| - 1], formatName), schema[|schema| - 1], formatName)
  }

  /** _map_fields(schema, format_name) */
  method MapFields(schema: seq<SchemaField>, formatName: string) returns (mapDict: SchemaMap)
    ensures mapDict == MapFieldsOf(schema, formatName)
  {
    mapDict := [];
    for i := 0 to |schema|
      invariant mapDict == MapFieldsOf(schema[..i], formatName)
    {
      var field := schema[i];
      ghost var before := mapDict;
      var formatField := "";
      if Tag(field.tags, formatName) != "" {
        formatField := field.tags[formatName];
        mapDict := Dicts.Set(mapDict, formatField, MapEntry(field.fieldName, Some([])));
      }
      for j := 0 to |field.subfields|
        invariant formatField == Tag(field.tags, formatName)
        invariant formatField != "" ==>
          mapDict == Dicts.Set(before, formatField, MapEntry(field.fieldName, Some(SubfieldMap(field.subfields[..j], formatName))))
        invariant formatField == "" ==>
          mapDict == CompositeEntries(before, field.fieldName, field.subfields[..j], formatName)
      {
        var subfield := field.subfields[j];
        if formatField != "" {
          TaggedTurn(before, formatField, field.fieldName, field.subfields, formatName, j);
        } else {
          CompositeTurn(before, field.fieldName, field.subfields, formatName, j);
        }
        if Tag(subfield.tags, formatName) != "" {
          var formatSubfield := subfield.tags[formatName];
          if formatField != "" {
            var entry := Dicts.Get(mapDict, formatField).value;
            var subs := Dicts.Set(entry.subfields.value, formatSubfield, subfield.fieldName);
            mapDict := Dicts.Set(mapDict, formatField, MapEntry(field.fieldName, Some(subs)));
          } else {
            mapDict := Dicts.Set(mapDict, formatSubfield, MapEntry(field.fieldName + "." + subfield.fieldName, None));
          }
        }
      }
      MapFieldsTurn(schema, formatName, i);
      Seqs.TakeAll(field.subfields);
    }
    Seqs.TakeAll(schema);
  }

  /** The map after field i is field i applied to the map of the fields before it. */
  lemma MapFieldsTurn(schema: seq<SchemaField>, formatName: string, i: nat)
    requires i < |schema|
    ensures MapFieldsOf(schema[..i + 1], formatName) == MapField(MapFieldsOf(schema[..i], formatName), schema[i], formatName)
  {
    Seqs.TakeSnoc(schema, i);
  }

  /** The subfield loop of a tagged field: subfield j goes into the 'subfields' dict stored under the field's tag. */
  lemma TaggedTurn(before: SchemaMap, tag: string, fieldName: string, subs: seq<Subfield>, formatName: string, j: nat)
    requires j < |subs|
    ensures var e := MapEntry(fieldName, Some(SubfieldMap(subs[..j], formatName)));
      var m := Dicts.Set(before, tag, e);
      var t := Tag(subs[j].tags, formatName);
      && Dicts.Get(m, tag) == Some(e)
      && (t != "" ==>
            Dicts.Set(m, tag, MapEntry(fieldName, Some(Dicts.Set(SubfieldMap(subs[..j], formatName), t, subs[j].fieldName))))
            == Dicts.Set(before, tag, MapEntry(fieldName, Some(SubfieldMap(subs[..j + 1], formatName)))))
      && (t == "" ==> m == Dicts.Set(before, tag, MapEntry(fieldName, Some(SubfieldMap(subs[..j + 1], formatName)))))
  {
    Seqs.TakeSnoc(subs, j);
    var e := MapEntry(fieldName, Some(SubfieldMap(subs[..j], formatName)));
    Dicts.GetSet(before, tag, e, tag);
    var t := Tag(subs[j].tags, formatName);
    Dicts.SetSet(before, tag, e, MapEntry(fieldName, Some(Dicts.Set(SubfieldMap(subs[..j], formatName), t, subs[j].fieldName))));
  }

  /** The subfield loop of an untagged field: subfield j adds a top-level 'field.subfield' entry when it has a tag. */
  lemma CompositeTurn(before: SchemaMap, fieldName: string, subs: seq<Subfield>, formatName: string, j: nat)
    requires j < |subs|
    ensures var m := CompositeEntries(before, fieldName, subs[..j], formatName);
      var t := Tag(subs[j].tags, formatName);
      CompositeEntries(before, fieldName, subs[..j + 1], formatName)
        == if t != "" then Dicts.Set(m, t, MapEntry(fieldName + "." + subs[j].fieldName, None)) else m
  {
    Seqs.TakeSnoc(subs, j);
  }

  /**
   * A tagged field leaves an entry under its tag holding its CKAN name and
   * the subfield map of its subfields.
   */
  lemma MapFieldTagged(acc: SchemaMap, f: SchemaField, formatName: string)
    requires Tag(f.tags, formatName) != ""
    ensures Dicts.Get(MapField(acc, f, formatName), Tag(f.tags, formatName))
      == Some(MapEntry(f.fieldName, Some(SubfieldMap(f.subfields, formatName))))
  {
    Dicts.GetSet(acc, Tag(f.tags, formatName), MapEntry(f.fieldName, Some(SubfieldMap(f.subfields, formatName))), Tag(f.tags, formatName));
  }

  /** In a subfield map, a tag holds the name of the last subfield that carries it. */
  lemma {:induction false} SubfieldMapLast(subs: seq<Subfield>, formatName: string, i: nat)
    requires i < |subs| && Tag(subs[i].tags, formatName) != ""
    requires forall j :: i < j < |subs| ==> Tag(subs[j].tags, formatName) != Tag(subs[i].tags, formatName)
    ensures Dicts.Get(SubfieldMap(subs, formatName), Tag(subs[i].tags, formatName)) == Some(subs[i].fieldName)
    decreases |subs|
  {
    var k := Tag(subs[i].tags, formatName);
    var init := subs[..|subs| - 1];
    var s := subs[|subs| - 1];
    if i == |subs| - 1 {
      Dicts.GetSet(SubfieldMap(init, formatName), k, s.fieldName, k);
    } else {
      assert init[i] == subs[i];
      SubfieldMapLast(init, formatName, i);
      var t := Tag(s.tags, formatName);
      if t != "" {
        Dicts.GetSet(SubfieldMap(init, formatName), t, s.fieldName, k);
      }
    }
  }

  /** A tag no subfield carries is not in the subfield map. */
  lemma {:induction false} SubfieldMapAbsent(subs: seq<Subfield>, formatName: string, k: string)
    requires forall j :: 0 <= j < |subs| ==> Tag(subs[j].tags, formatName) != k
    ensures Dicts.Get(SubfieldMap(subs, formatName), k) == None
    decreases |subs|
  {
    if subs != [] {
      var init := subs[..|subs| - 1];
      var s := subs[|subs| - 1];
      SubfieldMapAbsent(init, formatName, k);
      var t := Tag(s.tags, formatName);
      if t != "" {
        Dicts.GetSet(SubfieldMap(init, formatName), t, s.fieldName, k);
      }
    }
  }

  /**
   * An untagged field's subfield tagged k puts 'field.subfield' under k
   * at the top level, the last such subfield winning.
   */
  lemma {:induction false} CompositeEntriesLast(acc: SchemaMap, fieldName: string, subs: seq<Subfield>, formatName: string, i: nat)
    requires i < |subs| && Tag(subs[i].tags, formatName) != ""
    requires forall j :: i < j < |subs| ==> Tag(subs[j].tags, formatName) != Tag(subs[i].tags, formatName)
    ensures Dicts.Get(CompositeEntries(acc, fieldName, subs, formatName), Tag(subs[i].tags, formatName))
      == Some(MapEntry(fieldName + "." + subs[i].fieldName, None))
    decreases |subs|
  {
    var k := Tag(subs[i].tags, formatName);
    var init := subs[..|subs| - 1];
    var s := subs[|subs| - 1];
    var m := CompositeEntries(acc, fieldName, init, formatName);
    if i == |subs| - 1 {
      Dicts.GetSet(m, k, MapEntry(fieldName + "." + s.fieldName, None), k);
    } else {
      assert init[i] == subs[i];
      CompositeEntriesLast(acc, fieldName, init, formatName, i);
      var t := Tag(s.tags, formatName);
      if t != "" {
        Dicts.GetSet(m, t, MapEntry(fieldName + "." + s.fieldName, None), k);
      }
    }
  }

  /** An untagged field leaves every key none of its subfields carries as it was. */
  lemma {:induction false} CompositeEntriesKeep(acc: SchemaMap, fieldName: string, subs: seq<Subfield>, formatName: string, k: string)
    requires forall j :: 0 <= j < |subs| ==> Tag(subs[j].tags, formatName) != k
    ensures Dicts.Get(CompositeEntries(acc, fieldName, subs, formatName), k) == Dicts.Get(acc, k)
    decreases |subs|
  {
    if subs != [] {
      var init := subs[..|subs| - 1];
      var s := subs[|subs| - 1];
      CompositeEntriesKeep(acc, fieldName, init, formatName, k);
      var t := Tag(s.tags, formatName);
      if t != "" {
        Dicts.GetSet(CompositeEntries(acc, fieldName, init, formatName), t, MapEntry(fieldName + "." + s.fieldName, None), k);
      }
    }
  }

  /** Whether field f puts an entry under key k: its own tag, or, untagged, a subfield's tag. */
  predicate Provides(f: SchemaField, formatName: string, k: string) {
    var t := Tag(f.tags, formatName);
    k != "" && (t == k || (t == "" && exists j :: 0 <= j < |f.subfields| && Tag(f.subfields[j].tags, formatName) == k))
  }

  /** A field that provides no entry under k leaves k's entry unchanged. */
  lemma MapFieldKeep(acc: SchemaMap, f: SchemaField, formatName: string, k: string)
    requires k != "" && !Provides(f, formatName, k)
    ensures Dicts.Get(MapField(acc, f, formatName), k) == Dicts.Get(acc, k)
  {
    var t := Tag(f.tags, formatName);
    if t != "" {
      Dicts.GetSet(acc, t, MapEntry(f.fieldName, Some(SubfieldMap(f.subfields, formatName))), k);
    } else {
      CompositeEntriesKeep(acc, f.fieldName, f.subfields, formatName, k);
    }
  }

  /** The keys of the map are exactly the keys some field of the schema provides. */
  lemma {:induction false} MapFieldsKeys(schema: seq<SchemaField>, formatName: string, k: string)
    requires k != ""
    ensures k in Dicts.Keys(MapFieldsOf(schema, formatName))
      <==> exists i :: 0 <= i < |schema| && Provides(schema[i], formatName, k)
    decreases |schema|
  {
    if schema != [] {
      var init := schema[..|schema| - 1];
      var f := schema[|schema| - 1];
      var acc := MapFieldsOf(init, formatName);
      MapFieldsKeys(init, formatName, k);
      if Provides(f, formatName, k) {
        var t := Tag(f.tags, formatName);
        if t == k {
          MapFieldTagged(acc, f, formatName);
        } else {
          var j :| 0 <= j < |f.subfields| && Tag(f.subfields[j].tags, formatName) == k;
          var last := LastCarrying(f.subfields, formatName, k, j);
          CompositeEntriesLast(acc, f.fieldName, f.subfields, formatName, last);
        }
        assert schema[|schema| - 1] == f;
      } else {
        MapFieldKeep(acc, f, formatName, k);
        if exists i :: 0 <= i < |schema| && Provides(schema[i], formatName, k) {
          var i :| 0 <= i < |schema| && Provides(schema[i], formatName, k);
          assert i < |schema| - 1 && init[i] == schema[i];
        }
        forall i | 0 <= i < |init| && Provides(init[i], formatName, k)
          ensures Provides(schema[i], formatName, k)
        {
          assert init[i] == schema[i];
        }
      }
    }
  }

  /** The index of the last subfield carrying tag k, given that subs[j] carries it. */
  lemma LastCarrying(subs: seq<Subfield>, formatName: string, k: string, j: nat) returns (last: nat)
    requires j < |subs| && Tag(subs[j].tags, formatName) == k
    ensures j <= last < |subs| && Tag(subs[last].tags, formatName) == k
    ensures forall i :: last < i < |subs| ==> Tag(subs[i].tags, formatName) != k
    decreases |subs| - j
  {
    if exists i :: j < i < |subs| && Tag(subs[i].tags, formatName) == k {
      var i :| j < i < |subs| && Tag(subs[i].tags, formatName) == k;
      last := LastCarrying(subs, formatName, k, i);
    } else {
      last := j;
    }
  }

  // ---------------------------------------------------------------------
  // _joinTags

  /** The non-empty tags of a list, in order. */
  function NonEmpty(tags: seq<string>): (r: seq<string>)
    ensures forall i :: 0 <= i < |r| ==> r[i] != "" && r[i] in tags
    ensures forall t :: t in tags && t != "" ==> t in r
    decreases |tags|
  {
    if tags == [] then []
    else if tags[0] == "" then NonEmpty(tags[1..])
    else [tags[0]] + NonEmpty(tags[1..])
  }

  /** _joinTags(tag_list, sep): the non-empty tags joined with sep. */
  function JoinTags(tags: seq<string>, sep: string := "."): string {
    Text.Join(NonEmpty(tags), sep)
  }

  lemma {:induction false} NonEmptyAppend(a: seq<string>, b: seq<string>)
    ensures NonEmpty(a + b) == NonEmpty(a) + NonEmpty(b)
    decreases |a|
  {
    if a != [] {
      NonEmptyAppend(a[1..], b);
      NonEmptyAppendStep(a, b);
    } else {
      Seqs.AppendEmpty(b);
    }
  }

  lemma NonEmptyAppendStep(a: seq<string>, b: seq<string>)
    requires a != [] && NonEmpty(a[1..] + b) == NonEmpty(a[1..]) + NonEmpty(b)
    ensures NonEmpty(a + b) == NonEmpty(a) + NonEmpty(b)
  {
    assert (a + b)[0] == a[0];
    assert (a + b)[1..] == a[1..] + b;
    Seqs.AppendAssoc([a[0]], NonEmpty(a[1..]), NonEmpty(b));
  }

  /** An empty tag anywhere in the list changes nothing: ['title', ''] joins to 'title'. */
  lemma JoinTagsSkipsEmpty(a: seq<string>, b: seq<string>, sep: string)
    ensures JoinTags(a + [""] + b, sep) == JoinTags(a + b, sep)
  {
    assert [""][1..] == [];
    assert NonEmpty([""]) == [];
    NonEmptyAppend(a + [""], b);
    NonEmptyAppend(a, [""]);
    NonEmptyAppend(a, b);
    assert NonEmpty(a + [""]) == NonEmpty(a);
    assert NonEmpty(a + [""] + b) == NonEmpty(a + b);
  }

  /** A single non-empty tag is its own join, and two non-empty tags join around the separator. */
  lemma JoinTagsTwo(a: string, b: string, sep: string)
    ensures JoinTags([a, b], sep) == if a == "" then b else if b == "" then a else a + sep + b
  {
    assert [a, b][1..] == [b];
    assert [b][1..] == [];
    assert NonEmpty([b]) == if b == "" then [] else [b];
    if a != "" && b != "" {
      assert NonEmpty([a, b]) == [a, b];
      assert Text.Join([a, b], sep) == a + sep + Text.Join([b], sep);
    }
  }

  /**
   * The join splits back into the non-empty tags when the separator is a
   * character no tag contains.
   */
  lemma JoinTagsSplit(tags: seq<string>, sep: char)
    requires forall i :: 0 <= i < |tags| ==> sep !in tags[i]
    requires NonEmpty(tags) != []
    ensures Text.Split(JoinTags(tags, [sep]), sep) == NonEmpty(tags)
  {
    Text.SplitJoin(NonEmpty(tags), sep);
  }
}

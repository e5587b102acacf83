/**
 * Reading a dataset dict through the schema map: get_single_mapped_value
 * for a format tag with one value, and _get_complex_mapped_value for a
 * group of format tags, read from plain CKAN fields and from a composite
 * (repeating, JSON-encoded) field.
 */
module SchemingValues {
  import opened Wrappers
  import opened Json
  import opened Libraries
  import opened SchemaMapping
  import Dicts
  import Text
  import Seqs

  /** metadata_map.get(format_tag, {FIELD_NAME: ''})[FIELD_NAME]: the CKAN field a format tag reads. */
  function CkanTag(metadataMap: SchemaMap, formatTag: string): string {
    match Dicts.Get(metadataMap, formatTag)
    case Some(e) => e.fieldName
    case None => ""
  }

  /** d.get(key, '') */
  function GetOrBlank(d: seq<(string, Json)>, key: string): (r: Json)
    ensures key !in Dicts.Keys(d) ==> r == JStr("")
  {
    match Dicts.Get(d, key)
    case Some(v) => v
    case None => JStr("")
  }

  /**
   * The repeating-field step: a string holding a non-empty JSON list gives
   * the list's first item; anything else, including a string json.loads
   * rejects and a value it cannot take, stays as it is.
   */
  function FirstRepeated(libs: Libs, value: Json): Json {
    match value
    case JStr(s) =>
      (match libs.loads(s)
       case Some(JList(xs)) => if xs == [] then value else xs[0]
       case _ => value)
    case _ => value
  }

  /**
   * The composite step for a CKAN tag 'field.subfield': the subfield of
   * the JSON object (or of the first item of the JSON list) stored as a
   * string under field; None where the code's try block catches an error.
   */
  function CompositeLookup(libs: Libs, datasetDict: seq<(string, Json)>, ckanTag: string): Option<Json>
    requires '.' in ckanTag
  {
    var k := Text.Find(ckanTag, '.');
    var field := ckanTag[..k];
    var subfield := ckanTag[k + 1..];
    var stored: Option<Json> := Dicts.Get(datasetDict, field);
    match stored
    case Some(JStr(s)) =>
      (match libs.loads(s)
       case Some(j) =>
         var first: Option<Json> := if j.JList? then (if j.items == [] then None else Some(j.items[0])) else Some(j);
         (match first
          case Some(JObj(fs)) => Dicts.Get(fs, subfield)
          case _ => None)
       case None => None)
    case _ => None
  }

  /**
   * get_single_mapped_value(format_tag, dataset_dict, metadata_map,
   * default): never raises, and gives either a truthy value found for the
   * tag or the default.
   */
  function GetSingleMappedValue(libs: Libs, formatTag: string, datasetDict: seq<(string, Json)>,
                                metadataMap: SchemaMap, default: Json := JStr("")): (r: Json)
    ensures Truthy(r) || r == default
  {
    var ckanTag := CkanTag(metadataMap, formatTag);
    var v0 := GetOrBlank(datasetDict, ckanTag);
    var v1 := if Truthy(v0) then FirstRepeated(libs, v0) else v0;
    var v2 :=
      if !Truthy(v1) && '.' in ckanTag then
        (match CompositeLookup(libs, datasetDict, ckanTag) case Some(x) => x case None => v1)
      else v1;
    if Truthy(v2) then v2 else default
  }

  /** A repeating field (a JSON list in a string) yields its first item when that item is truthy. */
  lemma SingleTakesFirstOfList(libs: Libs, formatTag: string, datasetDict: seq<(string, Json)>,
                               metadataMap: SchemaMap, default: Json, s: string, xs: seq<Json>)
    requires Dicts.Get(datasetDict, CkanTag(metadataMap, formatTag)) == Some(JStr(s))
    requires s != "" && libs.loads(s) == Some(JList(xs)) && xs != [] && Truthy(xs[0])
    ensures GetSingleMappedValue(libs, formatTag, datasetDict, metadataMap, default) == xs[0]
  {
  }

  /** A truthy value that is not a repeating field is returned as it is. */
  lemma SingleTakesPlainValue(libs: Libs, formatTag: string, datasetDict: seq<(string, Json)>,
                              metadataMap: SchemaMap, default: Json, v: Json)
    requires Dicts.Get(datasetDict, CkanTag(metadataMap, formatTag)) == Some(v) && Truthy(v)
    requires v.JStr? ==> !(libs.loads(v.s).Some? && libs.loads(v.s).value.JList? && libs.loads(v.s).value.items != [])
    ensures GetSingleMappedValue(libs, formatTag, datasetDict, metadataMap, default) == v
  {
  }

  /**
   * A format tag mapped to 'field.subfield' whose own value is missing or
   * falsy reads the subfield out of the composite field.
   */
  lemma SingleReadsComposite(libs: Libs, formatTag: string, datasetDict: seq<(string, Json)>,
                             metadataMap: SchemaMap, default: Json, x: Json)
    requires '.' in CkanTag(metadataMap, formatTag)
    requires !Truthy(GetOrBlank(datasetDict, CkanTag(metadataMap, formatTag)))
    requires CompositeLookup(libs, datasetDict, CkanTag(metadataMap, formatTag)) == Some(x) && Truthy(x)
    ensures GetSingleMappedValue(libs, formatTag, datasetDict, metadataMap, default) == x
  {
  }

  /** A tag the schema does not map reads the '' key, so on a dict without one it gives the default. */
  lemma SingleUnmappedIsDefault(libs: Libs, formatTag: string, datasetDict: seq<(string, Json)>,
                                metadataMap: SchemaMap, default: Json)
    requires formatTag !in Dicts.Keys(metadataMap) && "" !in Dicts.Keys(datasetDict)
    ensures GetSingleMappedValue(libs, formatTag, datasetDict, metadataMap, default) == default
  {
  }

  // ---------------------------------------------------------------------
  // _get_complex_mapped_value

  /** One ordered dict of the result. */
  type Object = seq<(string, Json)>

  /** The simple-fields object: each field tag's truthy value under 'element.field'. */
  function SimpleObject(groupTag: string, elementTag: string, fieldTags: seq<string>,
                        datasetDict: seq<(string, Json)>, metadataMap: SchemaMap): Object
    decreases |fieldTags|
  {
    if fieldTags == [] then []
    else
      var acc := SimpleObject(groupTag, elementTag, fieldTags[..|fieldTags| - 1], datasetDict, metadataMap);
      var simpleFieldTag := JoinTags([elementTag, fieldTags[|fieldTags| - 1]]);
      var value := GetOrBlank(datasetDict, CkanTag(metadataMap, JoinTags([groupTag, simpleFieldTag])));
      if Truthy(value) then Dicts.Set(acc, simpleFieldTag, value) else acc
  }

  /**
   * metadata_map.get(group_tag, {'subfields': []})['subfields']: the group's
   * subfield map; None for an unmapped group, whose default is an empty
   * list; KeyError for a 'field.subfield' entry, which has no 'subfields'.
   */
  function GroupSubfields(metadataMap: SchemaMap, groupTag: string): Result<Option<seq<(string, string)>>> {
    var entry: Option<MapEntry> := Dicts.Get(metadataMap, groupTag);
    match entry
    case None => Ok(None)
    case Some(MapEntry(_, None)) => Err(KeyError)
    case Some(MapEntry(_, Some(m))) => Ok(Some(m))
  }

  /** The object of one composite element, for an element that is a dict and a group with a subfield map. */
  function ElementFields(fields: seq<(string, Json)>, elementTag: string, fieldTags: seq<string>,
                         subs: seq<(string, string)>): Object
    decreases |fieldTags|
  {
    if fieldTags == [] then []
    else
      var acc := ElementFields(fields, elementTag, fieldTags[..|fieldTags| - 1], subs);
      var fieldTag := JoinTags([elementTag, fieldTags[|fieldTags| - 1]]);
      var ckanSubfield := match Dicts.Get(subs, fieldTag) case Some(n) => n case None => "";
      var value := GetOrBlank(fields, ckanSubfield);
      if Truthy(value) then Dicts.Set(acc, fieldTag, value) else acc
  }

  /**
   * The composite object of one element; None when the first lookup
   * raises AttributeError (the group's subfields are the default list, or
   * the element is not a dict).
   */
  function ElementObject(element: Json, elementTag: string, fieldTags: seq<string>,
                         subs: Option<seq<(string, string)>>): Option<Object>
  {
    if fieldTags == [] then Some([])
    else if subs.None? || !element.JObj? then None
    else Some(ElementFields(element.fields, elementTag, fieldTags, subs.value))
  }

  /**
   * The non-empty objects of the elements in order, and whether the loop
   * ran to the end: an element whose lookups raise ends the loop, and the
   * objects appended before it are kept.
   */
  function ElementObjects(elements: seq<Json>, elementTag: string, fieldTags: seq<string>,
                          subs: Option<seq<(string, string)>>): (seq<Object>, bool)
    decreases |elements|
  {
    if elements == [] then ([], true)
    else
      var (objs, ok) := ElementObjects(elements[..|elements| - 1], elementTag, fieldTags, subs);
      if !ok then (objs, false)
      else match ElementObject(elements[|elements| - 1], elementTag, fieldTags, subs)
        case None => (objs, false)
        case Some(o) => (objs + (if o != [] then [o] else []), true)
  }

  /**
   * The elements of the composite field: None unless its value is truthy
   * and is a string json.loads accepts; a parsed value that is not a list
   * is the only element.
   */
  function CompositeElements(libs: Libs, datasetDict: seq<(string, Json)>, ckanTag: string): Option<seq<Json>> {
    var raw := GetOrBlank(datasetDict, ckanTag);
    if !Truthy(raw) || !raw.JStr? then None
    else match libs.loads(raw.s)
      case None => None
      case Some(JList(xs)) => Some(xs)
      case Some(j) => Some([j])
  }

  /** _get_complex_mapped_value(group_tag, element_tag, field_tags, dataset_dict, metadata_map) */
  function ComplexMappedValue(libs: Libs, groupTag: string, elementTag: string, fieldTags: seq<string>,
                              datasetDict: seq<(string, Json)>, metadataMap: SchemaMap): Result<seq<Object>> {
    var simple := SimpleObject(groupTag, elementTag, fieldTags, datasetDict, metadataMap);
    var head := if simple != [] then [simple] else [];
    var subs :- GroupSubfields(metadataMap, groupTag);
    match CompositeElements(libs, datasetDict, CkanTag(metadataMap, groupTag))
    case None => Ok(head)
    case Some(elements) => Ok(head + ElementObjects(elements, elementTag, fieldTags, subs).0)
  }

  method SimpleFields(groupTag: string, elementTag: string, fieldTags: seq<string>,
                      datasetDict: seq<(string, Json)>, metadataMap: SchemaMap) returns (obj: Object)
    ensures obj == SimpleObject(groupTag, elementTag, fieldTags, datasetDict, metadataMap)
  {
    obj := [];
    for i := 0 to |fieldTags|
      invariant obj == SimpleObject(groupTag, elementTag, fieldTags[..i], datasetDict, metadataMap)
    {
      assert fieldTags[..i + 1][..i] == fieldTags[..i];
      var simpleFieldTag := JoinTags([elementTag, fieldTags[i]]);
      var groupFieldTag := JoinTags([groupTag, simpleFieldTag]);
      var ckanTag := CkanTag(metadataMap, groupFieldTag);
      var value := GetOrBlank(datasetDict, ckanTag);
      if Truthy(value) {
        obj := Dicts.Set(obj, simpleFieldTag, value);
      }
    }
    assert fieldTags[..|fieldTags|] == fieldTags;
  }

  method CompositeObject(element: Json, elementTag: string, fieldTags: seq<string>,
                         subs: Option<seq<(string, string)>>) returns (r: Option<Object>)
    ensures r == ElementObject(element, elementTag, fieldTags, subs)
  {
    var obj: Object := [];
    for i := 0 to |fieldTags|
      invariant i == 0 ==> obj == []
      invariant i > 0 ==> subs.Some? && element.JObj?
      invariant i > 0 ==> obj == ElementFields(element.fields, elementTag, fieldTags[..i], subs.value)
    {
      assert fieldTags[..i + 1][..i] == fieldTags[..i];
      var fieldTag := JoinTags([elementTag, fieldTags[i]]);
      if subs.None? || !element.JObj? {
        return None;
      }
      var ckanSubfield := match Dicts.Get(subs.value, fieldTag) case Some(n) => n case None => "";
      var value := GetOrBlank(element.fields, ckanSubfield);
      if Truthy(value) {
        obj := Dicts.Set(obj, fieldTag, value);
      }
    }
    assert fieldTags[..|fieldTags|] == fieldTags;
    return Some(obj);
  }

  /**
   * The try block over the composite elements: appends each element's
   * non-empty object to valuesList, stopping at the first element whose
   * lookups raise (the exception is caught and logged).
   */
  method AppendCompositeObjects(xs: seq<Json>, elementTag: string, fieldTags: seq<string>,
                                subs: Option<seq<(string, string)>>, valuesList: seq<Object>)
    returns (valuesList': seq<Object>)
    ensures valuesList' == valuesList + ElementObjects(xs, elementTag, fieldTags, subs).0
  {
    valuesList' := valuesList;
    ghost var added: seq<Object> := [];
    Seqs.AppendEmpty(valuesList);
    for i := 0 to |xs|
      invariant valuesList' == valuesList + added
      invariant ElementObjects(xs[..i], elementTag, fieldTags, subs) == (added, true)
    {
      var obj := CompositeObject(xs[i], elementTag, fieldTags, subs);
      if obj.None? {
        ElementObjectsStop(xs, elementTag, fieldTags, subs, i);
        return;
      }
      ElementObjectsStep(xs, elementTag, fieldTags, subs, i);
      if obj.value != [] {
        Seqs.AppendAssoc(valuesList, added, [obj.value]);
        valuesList' := valuesList' + [obj.value];
        added := added + [obj.value];
      } else {
        Seqs.AppendEmpty(added);
      }
    }
    Seqs.TakeAll(xs);
  }

  /** _get_complex_mapped_value as its loops and its try block compute it. */
  method GetComplexMappedValue(libs: Libs, groupTag: string, elementTag: string, fieldTags: seq<string>,
                               datasetDict: seq<(string, Json)>, metadataMap: SchemaMap)
    returns (r: Result<seq<Object>>)
    ensures r == ComplexMappedValue(libs, groupTag, elementTag, fieldTags, datasetDict, metadataMap)
  {
    var valuesList: seq<Object> := [];
    var simple := SimpleFields(groupTag, elementTag, fieldTags, datasetDict, metadataMap);
    if simple != [] {
      valuesList := valuesList + [simple];
    }
    var subsOrErr := GroupSubfields(metadataMap, groupTag);
    if subsOrErr.Err? {
      return Err(subsOrErr.error);
    }
    var subs := subsOrErr.value;
    var ckanTag := CkanTag(metadataMap, groupTag);
    var elements := CompositeElements(libs, datasetDict, ckanTag);
    assert GroupSubfields(metadataMap, groupTag) == Ok(subs);
    assert valuesList == if simple != [] then [simple] else [];
    if elements.None? {
      return Ok(valuesList);
    }
    valuesList := AppendCompositeObjects(elements.value, elementTag, fieldTags, subs, valuesList);
    return Ok(valuesList);
  }

  /** An element whose lookups succeed adds its object, when non-empty, and the loop goes on. */
  lemma ElementObjectsStep(elements: seq<Json>, elementTag: string, fieldTags: seq<string>,
                           subs: Option<seq<(string, string)>>, k: nat)
    requires k < |elements| && ElementObjects(elements[..k], elementTag, fieldTags, subs).1
    requires ElementObject(elements[k], elementTag, fieldTags, subs).Some?
    ensures var o := ElementObject(elements[k], elementTag, fieldTags, subs).value;
      ElementObjects(elements[..k + 1], elementTag, fieldTags, subs)
        == (ElementObjects(elements[..k], elementTag, fieldTags, subs).0 + (if o != [] then [o] else []), true)
  {
    assert elements[..k + 1][..k] == elements[..k];
    assert elements[..k + 1][k] == elements[k];
  }

  /** An element whose lookups raise ends the loop: nothing after it is read. */
  lemma {:induction false} ElementObjectsStop(elements: seq<Json>, elementTag: string, fieldTags: seq<string>,
                                              subs: Option<seq<(string, string)>>, k: nat)
    requires k < |elements| && ElementObject(elements[k], elementTag, fieldTags, subs).None?
    ensures ElementObjects(elements, elementTag, fieldTags, subs).0 == ElementObjects(elements[..k], elementTag, fieldTags, subs).0
    ensures !ElementObjects(elements, elementTag, fieldTags, subs).1
    decreases |elements|
  {
    var init := elements[..|elements| - 1];
    if k == |elements| - 1 {
      assert init == elements[..k];
    } else {
      assert init[k] == elements[k];
      assert init[..k] == elements[..k];
      ElementObjectsStop(init, elementTag, fieldTags, subs, k);
    }
  }

  /** Every value of the simple object is truthy and sits under 'element.field' for one of the field tags. */
  lemma {:induction false} SimpleObjectEntries(groupTag: string, elementTag: string, fieldTags: seq<string>,
                                               datasetDict: seq<(string, Json)>, metadataMap: SchemaMap, key: string)
    requires Dicts.Get(SimpleObject(groupTag, elementTag, fieldTags, datasetDict, metadataMap), key).Some?
    ensures Truthy(Dicts.Get(SimpleObject(groupTag, elementTag, fieldTags, datasetDict, metadataMap), key).value)
    ensures exists f :: f in fieldTags && key == JoinTags([elementTag, f])
    decreases |fieldTags|
  {
    var init := fieldTags[..|fieldTags| - 1];
    var acc := SimpleObject(groupTag, elementTag, init, datasetDict, metadataMap);
    var f := fieldTags[|fieldTags| - 1];
    var simpleFieldTag := JoinTags([elementTag, f]);
    var value := GetOrBlank(datasetDict, CkanTag(metadataMap, JoinTags([groupTag, simpleFieldTag])));
    if Truthy(value) {
      Dicts.GetSet(acc, simpleFieldTag, value, key);
    }
    if key != simpleFieldTag || !Truthy(value) {
      SimpleObjectEntries(groupTag, elementTag, init, datasetDict, metadataMap, key);
      var g :| g in init && key == JoinTags([elementTag, g]);
      assert g in fieldTags;
    }
  }

  /** Every object _get_complex_mapped_value returns is non-empty. */
  lemma ComplexObjectsNonEmpty(libs: Libs, groupTag: string, elementTag: string, fieldTags: seq<string>,
                               datasetDict: seq<(string, Json)>, metadataMap: SchemaMap)
    requires ComplexMappedValue(libs, groupTag, elementTag, fieldTags, datasetDict, metadataMap).Ok?
    ensures forall o :: o in ComplexMappedValue(libs, groupTag, elementTag, fieldTags, datasetDict, metadataMap).value ==> o != []
  {
    var subs := GroupSubfields(metadataMap, groupTag).value;
    match CompositeElements(libs, datasetDict, CkanTag(metadataMap, groupTag))
    case None =>
    case Some(elements) => ElementObjectsNonEmpty(elements, elementTag, fieldTags, subs);
  }

  lemma {:induction false} ElementObjectsNonEmpty(elements: seq<Json>, elementTag: string, fieldTags: seq<string>,
                                                  subs: Option<seq<(string, string)>>)
    ensures forall o :: o in ElementObjects(elements, elementTag, fieldTags, subs).0 ==> o != []
    decreases |elements|
  {
    if elements != [] {
      ElementObjectsNonEmpty(elements[..|elements| - 1], elementTag, fieldTags, subs);
    }
  }

  /**
   * A composite value that is one JSON object is read as the list holding
   * only that object.
   */
  lemma ComplexObjectIsOneElementList(libs: Libs, libs': Libs, groupTag: string, elementTag: string, fieldTags: seq<string>,
                                      datasetDict: seq<(string, Json)>, metadataMap: SchemaMap, s: string, o: seq<(string, Json)>)
    requires Dicts.Get(datasetDict, CkanTag(metadataMap, groupTag)) == Some(JStr(s))
    requires libs.loads(s) == Some(JObj(o)) && libs'.loads(s) == Some(JList([JObj(o)]))
    ensures ComplexMappedValue(libs, groupTag, elementTag, fieldTags, datasetDict, metadataMap)
      == ComplexMappedValue(libs', groupTag, elementTag, fieldTags, datasetDict, metadataMap)
  {
  }

  /** A group tag mapped to a 'field.subfield' entry makes the lookup of its subfields raise KeyError. */
  lemma ComplexSubfieldEntryRaises(libs: Libs, groupTag: string, elementTag: string, fieldTags: seq<string>,
                                   datasetDict: seq<(string, Json)>, metadataMap: SchemaMap, name: string)
    requires Dicts.Get(metadataMap, groupTag) == Some(MapEntry(name, None))
    ensures ComplexMappedValue(libs, groupTag, elementTag, fieldTags, datasetDict, metadataMap) == Err(KeyError)
  {
  }
}

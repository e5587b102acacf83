# ckanext-package_converter in Dafny

A Dafny model of the core of ckanext-package_converter, the CKAN plug-in
that exports a dataset ("package") in other metadata formats. The model
covers:

- **Metadata formats.** A format has a name, a version, a type, a file
  extension and a description; an XML format also has an XSD URL. The
  format registry maps each format name to its formats, most recently
  added first.
- **Records.** A record pairs a format with content. An XML record also
  holds the dict that xmltodict parsed from its content. A JSON record
  holds the dict its content serialises.
- **Converters.** A converter has an input format, an output format and
  three compatibility gates. Compatibility is equality, or equality of the
  lower-cased names (and versions, when the version is checked).
- **The converter registry.** It maps an input-format name to the
  converters registered for it. Its `find_conversion_chain` searches
  breadth-first for a chain of up to `limit` converters from a record's
  format to the requested one. `get_conversion` applies that chain.
- **The plug-in's example converter.** The custom format and what its
  converter writes.
- **The helpers inside the EnviDat converters** that work on CKAN dicts:
  - the DataCite scheming converters: the schema map, single and complex
    mapped values, controlled vocabularies and coordinate flattening;
  - the DataCite resource converters: inheriting package values and the
    size entry;
  - the CSV converter;
  - the ISO 19139 converter: `_cap_code`, `_get_or_missing`, language codes,
    the box test, keywords and online resources;
  - the GCMD DIF converter: keywords, science keywords, resource formats and
    restrictions, language codes and the bounding rectangle;
  - `_extras_as_dict` and `_get_ignore_case`, which the ISO and DIF
    converters share.

How the model is built:

- **Python values.** `Json` stands for the values the code handles:
  None, bools, integers, floats (as exact reals), strings, lists and
  dicts. A dict is an association list. For an OrderedDict its order is
  the insertion order. A plain dict iterates in hash order in Python 2,
  so for it the list fixes one order Python may produce. `Json.PyEq` is
  Python's `==`, under which dicts compare whatever the order of their
  keys and `True == 1 == 1.0`. A raised exception becomes `Err` of a
  `PyError` kind.
- **Libraries.** `json.dumps`/`loads`, xmltodict, XSLT, `repr` and NFKD
  normalisation are parameters (`Libraries.Libs`). Lemmas that need a
  round trip require it explicitly.
- **Imperative code.** The registries are classes whose map fields the
  methods reassign. Converters are objects whose fields never change, so
  the chain search's `converter not in converter_chain` is object
  identity. Each loop of the source is a method with a `while` loop,
  proved equal to a function. The lemmas are stated about that function.
- **Chain search.** It is proved against a generic breadth-first search
  (`Paths`). A chain it returns is valid, repeats no converter and is
  shortest. An empty answer means no valid chain of that length exists.

Helpers that several source files carry are modelled once, and the rows
below cite one of the copies. `_inherit_from_package` and
`_extras_as_dict` are the same word for word in each copy.
`_valueToDataciteCV` and `_flatten_list` are the same up to the `self`
parameter, which the 3.1 converter's copies take (and through which its
`_flatten_list` recurses). The two `_get_ignore_case` copies differ in their default:
the ISO copy returns `data_dict.get(tag_key)`, so None, and the DIF copy
`data_dict.get(tag_key, '')`; the model takes the default as a parameter.
The CSV and DIF `get_keywords` return the upper-cased tag names
(`Extras.TagNames`); the ISO copy wraps each name in
`{'gco:CharacterString': name}` (`EnvidatIso.Keywords`).

## Model

| member | source | states |
|---|---|---|
| MetadataFormat.TypeValue | ckanext/package_converter/model/metadata_format.py:3-10 | every format type has a non-empty value, which serves as the default file extension |
| MetadataFormat.NewFormat | ckanext/package_converter/model/metadata_format.py:14-19 | a new format keeps its name, version, type and description; its extension is the one given, or the type's value when none is given, so it is never empty |
| MetadataFormat.NewXmlFormat | ckanext/package_converter/model/metadata_format.py:65-67 | an XML format has type XML, extension 'xml' and carries its XSD URL |
| MetadataFormat.EqIsEquality | ckanext/package_converter/model/metadata_format.py:43-50 | `__eq__` (same class, same attribute dict) holds exactly for identical formats, and `__ne__` exactly for different ones |
| MetadataFormat.CompatibleUsesEq | ckanext/package_converter/model/metadata_format.py:36-41 | is_compatible holds iff the formats are `__eq__`, or their lower-cased names (and, when checked, versions) agree |
| MetadataFormat.CompatibleIff | ckanext/package_converter/model/metadata_format.py:39 | compatibility is exactly case-insensitive equality of the names, plus of the versions when the version is checked |
| MetadataFormat.CompatibleReflexive | ckanext/package_converter/model/metadata_format.py:37-38 | every format is compatible with itself, with or without the version check |
| MetadataFormat.CompatibleSymmetric | ckanext/package_converter/model/metadata_format.py:36-41 | compatibility does not depend on the order of its arguments |
| MetadataFormat.FirstWithVersionSpec | ckanext/package_converter/model/metadata_format.py:105-109 | the version lookup returns at most one format; it is empty iff no format of the name has exactly that version, and otherwise returns the earliest that does |
| MetadataFormat.MetadataFormats.constructor | ckanext/package_converter/model/metadata_format.py:78-79 | the registry starts empty |
| MetadataFormat.MetadataFormats.AddMetadataFormat | ckanext/package_converter/model/metadata_format.py:81-89 | the new format is first for its name; with replace it is the only one, otherwise the earlier ones follow in order; other names are unchanged; the count grows by one (with replace, by one minus the formats dropped) |
| MetadataFormat.MetadataFormats.GetMetadataFormats | ckanext/package_converter/model/metadata_format.py:101-109 | the list for the name ([] when unknown) when no version is given, otherwise the first format with that exact version |
| MetadataFormat.MetadataFormats.GetNumFormats | ckanext/package_converter/model/metadata_format.py:91-96 | the number of formats registered over all names |
| Records.NewXmlRecord | ckanext/package_converter/model/record.py:43-45 | an XML record exists iff its content parses; it keeps format and content and holds the parsed dict |
| Records.XmlFromRecord | ckanext/package_converter/model/record.py:48-49 | from_record keeps format and content, and fails exactly when the content does not parse |
| Records.XmlFromDict | ckanext/package_converter/model/record.py:52-53 | from_dict gives an XML record of the format whose content is the unparsed dict |
| Records.XmlFromDictRoundTrip | ckanext/package_converter/model/record.py:52-56 | when xmltodict round-trips, the record built from a dict gives that dict back |
| Records.XmlFromRecordIdempotent | ckanext/package_converter/model/record.py:48-49 | re-reading an XML record gives the same record |
| Records.NewJsonRecord | ckanext/package_converter/model/record.py:110-112 | a JSON record keeps format and dict, and its content is the dict serialised |
| Records.JsonFromRecord | ckanext/package_converter/model/record.py:118-119 | from_record succeeds iff the content is JSON (ValueError otherwise), and keeps the format |
| Records.JsonFromRecordRoundTrip | ckanext/package_converter/model/record.py:110-119 | when json round-trips, from_record of a JSON record is that record |
| Converting.Converter.constructor | ckanext/package_converter/model/converter.py:12-14 | a converter holds the given input and output formats |
| Converting.Converter.Convert | ckanext/package_converter/model/converter.py:22-23 | the abstract converter raises NotImplementedError; any other converter raises TypeError on a record it cannot convert; a result is always in the output format |
| Converting.CanConvertFormatIff | ckanext/package_converter/model/converter.py:38-40 | can_convert_format holds iff the input gate holds and, when an output format is given, the output gate holds, each being case-insensitive name (and version) equality |
| Converting.XslConvertShape | ckanext/package_converter/model/converter.py:73-85 | XSLConverter.convert raises TypeError on a non-XML record; otherwise the content is the transformed content, returned as an XML record exactly when the output format is an XML format |
| Converting.NewBaseConverter | ckanext/package_converter/model/converter.py:56-58 | the input format is the first registered 'ckan' format; IndexError when there is none |
| Converting.NewCustomConverter | ckanext/package_converter/custom/custom_converter.py:16-18 | output is the first 'custom' format and input the first 'ckan' format; IndexError when either is missing |
| Converting.NewCsvConverter | ckanext/package_converter/model/envidat_csv_converter.py:16-18 | output is the first 'csv' format and input the first 'ckan' format; IndexError when either is missing |
| Converting.CustomConvertNamesPackage | ckanext/package_converter/custom/custom_converter.py:20-25 | on a JSON record of a compatible format the result is a plain record in the custom format, whose content is the prefix and the package name |
| Converting.CustomConvertRejects | ckanext/package_converter/custom/custom_converter.py:26-30 | a record of an incompatible format raises TypeError |
| CustomConverter.CustomMetadataFormat | ckanext/package_converter/custom/custom_converter.py:8-12 | the custom format is 'custom' 1.0, a TEXT format with extension 'txt', carrying its custom parameter |
| CustomConverter.CustomContent | ckanext/package_converter/custom/custom_converter.py:22-23 | the content starts with the fixed prefix and ends with the package name ('' when it has none); AttributeError iff the dict is not a dict |
| ConverterRegistry.AddedOfferedFirst | ckanext/package_converter/model/converter.py:101-106 | after add_converter, the new converter is offered first for every format of its input name that it accepts, followed by the earlier ones in order |
| ConverterRegistry.AddedKeepsOthers | ckanext/package_converter/model/converter.py:103-106 | add_converter changes nothing for the other format names |
| ConverterRegistry.SetOfferedAlone | ckanext/package_converter/model/converter.py:108-112 | after set_converter the converter is the only one offered for its input format |
| ConverterRegistry.Converters.constructor | ckanext/package_converter/model/converter.py:98-99 | the registry starts empty |
| ConverterRegistry.Converters.AddConverter | ckanext/package_converter/model/converter.py:101 | the converter is put in front of those registered under its input name, and the count grows by one |
| ConverterRegistry.Converters.SetConverter | ckanext/package_converter/model/converter.py:108 | the converters under the name are replaced by the new one alone, which is then the only one offered for its input format |
| ConverterRegistry.Converters.GetNumConverters | ckanext/package_converter/model/converter.py:127-132 | the number of converters over all names |
| ConverterRegistry.Converters.GetAllConverters | ckanext/package_converter/model/converter.py:134-136 | one entry per registration, and a converter is listed iff it is registered under some name |
| ConverterRegistry.Converters.GetConvertersForFormat | ckanext/package_converter/model/converter.py:142-147 | exactly the converters registered under the format's exact name that pass can_convert_format, in registry order |
| ConverterRegistry.Converters.GetConvertersForRecord | ckanext/package_converter/model/converter.py:138-140 | the converters for the record's format |
| ConverterRegistry.Converters.FirstRound | ckanext/package_converter/model/converter.py:150-158 | the first initial converter that reaches the target, or else all one-converter chains |
| ConverterRegistry.Converters.ExtendChain | ckanext/package_converter/model/converter.py:162-172 | extending the chains: the first chain that reaches the target, or else all simple one-step extensions, in order |
| ConverterRegistry.Converters.ExtendByAll | ckanext/package_converter/model/converter.py:166-172 | the loop over the next converters stops with the first extension that reaches the target, or has appended all extensions of the chain |
| ConverterRegistry.Converters.ExtendByNext | ckanext/package_converter/model/converter.py:166-172 | one converter after a chain: skipped when already in the chain, the extended chain returned when it reaches the target, otherwise appended to the chains of the next length |
| ConverterRegistry.Converters.NextRound | ckanext/package_converter/model/converter.py:161-173 | one round finds the first chain of the next length that reaches the target, or else returns all chains of that length |
| ConverterRegistry.Converters.LaterRounds | ckanext/package_converter/model/converter.py:160-174 | the rounds 1 to limit-1 compute the breadth-first search from the second level on |
| ConverterRegistry.Converters.FindConversionChain | ckanext/package_converter/model/converter.py:149-174 | the chain returned is the one the breadth-first search specification gives (see the ChainSearch lemmas) |
| ConverterRegistry.Converters.GetConversion | ckanext/package_converter/model/converter.py:176-186 | None when no chain is found; otherwise the record converted along the chain, or the first exception a converter raises |
| ChainSearch.ConvertersForMember | ckanext/package_converter/model/converter.py:142-147 | a converter is offered for a format iff it is registered under the format's name and accepts it |
| ChainSearch.FindChainSound | ckanext/package_converter/model/converter.py:149-174 | a non-empty chain found starts at a converter accepting the input, links each output to the next input, ends at the target, repeats no converter and has at most max(1, limit) converters |
| ChainSearch.FindChainShortest | ckanext/package_converter/model/converter.py:153-173 | no valid chain, with or without repeats, is shorter than the one found |
| ChainSearch.FindChainComplete | ckanext/package_converter/model/converter.py:160-174 | the empty chain is returned only when no valid chain of at most max(1, limit) converters exists |
| ChainSearch.FindChainDirect | ckanext/package_converter/model/converter.py:153-156 | when the k-th converter offered for the input format is the first of them that can produce the target format, the chain found is exactly that converter |
| ChainSearch.ApplyChainFormat | ckanext/package_converter/model/converter.py:183-186 | a successful conversion ends in the last converter's output format |
| ChainSearch.ApplyChainErrPersists | ckanext/package_converter/model/converter.py:183-185 | once a converter raises, the later converters do not matter |
| ChainSearch.ConversionReachesTarget | ckanext/package_converter/model/converter.py:176-186 | whatever get_conversion returns is a record whose format the requested format is compatible with |
| ChainSearch.ExactNameLookupMissesCompatible | ckanext/package_converter/model/converter.py:144 | converters are looked up by exact name, so a converter registered under 'DataCite' is not offered for a 'datacite' format it accepts |
| CsvConverter.Clean | ckanext/package_converter/model/envidat_csv_converter.py:92 | the cleaned text holds no double quote, apostrophe or line break |
| CsvConverter.FormatValue | ckanext/package_converter/model/envidat_csv_converter.py:87-92 | a formatted value holds no double quote, apostrophe or line break |
| CsvConverter.AppendSubfields | ckanext/package_converter/model/envidat_csv_converter.py:69-72 | the loop appends one header and one value per truthy subfield, in lockstep |
| CsvConverter.AppendList | ckanext/package_converter/model/envidat_csv_converter.py:74-81 | the loop over a list of dicts appends the numbered columns, and reports whether an element that is not a dict stopped it |
| CsvConverter.AppendEntry | ckanext/package_converter/model/envidat_csv_converter.py:42-81 | one entry of the package dict appends its columns, or raises |
| CsvConverter.AppendScalar | ckanext/package_converter/model/envidat_csv_converter.py:43-65 | a value that is neither list nor dict appends the columns of the dict or list its text parses to; one text column when it does not parse; when a list element is not a dict, the columns of the elements before it and then the text column |
| CsvConverter.CsvConvertDataset | ckanext/package_converter/model/envidat_csv_converter.py:36-85 | the loop computes the header line, a newline and the value line of all the columns, or the first uncaught exception |
| CsvConverter.ListColumnsStops | ckanext/package_converter/model/envidat_csv_converter.py:75-77 | once an element has stopped the loop, the later elements add nothing |
| CsvConverter.ColumnsErrPersists | ckanext/package_converter/model/envidat_csv_converter.py:41 | once an entry has raised, the later entries do not matter |
| CsvConverter.ColumnsClean | ckanext/package_converter/model/envidat_csv_converter.py:51-81 | every value cell is quoted and holds no quote, apostrophe or line break |
| CsvConverter.CsvLayout | ckanext/package_converter/model/envidat_csv_converter.py:85 | the output is exactly a header line, one newline and a value line with as many clean cells as there are headers |
| CsvConverter.TruthyEntries | ckanext/package_converter/model/envidat_csv_converter.py:42 | no more entries than given, and every entry kept is truthy |
| CsvConverter.ColumnsIgnoreFalsy | ckanext/package_converter/model/envidat_csv_converter.py:41-42 | a falsy entry of the package dict gives no column |
| CsvConverter.SubfieldColumnsAreTruthyEntries | ckanext/package_converter/model/envidat_csv_converter.py:69-72 | one column per truthy subfield, in order, headed KEY_SUBKEY |
| CsvConverter.ListWithNonDictRaises | ckanext/package_converter/model/envidat_csv_converter.py:75-77 | a list holding something other than a dict raises AttributeError out of the converter |
| CsvConverter.JsonListWithNonDictFallsBack | ckanext/package_converter/model/envidat_csv_converter.py:54-65 | the same list given as a JSON string is caught: the columns of the dicts before it are kept and a text column follows |
| CsvConverter.ScalarIsText | ckanext/package_converter/model/envidat_csv_converter.py:62-65 | a value that is not JSON becomes one text column headed by the upper-cased key |
| CsvConverter.ListHeadersNumberedFromOne | ckanext/package_converter/model/envidat_csv_converter.py:54-61 | a dict nested in a list gets headers numbered from 1, as in KEY_1_SUBKEY |
| SchemaMapping.MapFields | ckanext/package_converter/model/scheming_converter.py:18-32 | the loops build exactly the map that folding the fields in order gives |
| SchemaMapping.MapFieldTagged | ckanext/package_converter/model/scheming_converter.py:22-24 | a tagged field leaves an entry under its tag, with its CKAN name and its subfields' map |
| SchemaMapping.SubfieldMapLast | ckanext/package_converter/model/scheming_converter.py:28-29 | in a subfield map, a tag holds the name of the last subfield that carries it |
| SchemaMapping.SubfieldMapAbsent | ckanext/package_converter/model/scheming_converter.py:25-29 | a tag that no subfield carries is absent from the subfield map |
| SchemaMapping.CompositeEntriesLast | ckanext/package_converter/model/scheming_converter.py:30-31 | an untagged field puts 'field.subfield' under a subfield's tag, and the last such subfield wins |
| SchemaMapping.CompositeEntriesKeep | ckanext/package_converter/model/scheming_converter.py:25-31 | an untagged field leaves every key that none of its subfields carries unchanged |
| SchemaMapping.MapFieldKeep | ckanext/package_converter/model/scheming_converter.py:20-31 | a field that provides nothing under a key leaves that key's entry unchanged |
| SchemaMapping.MapFieldsKeys | ckanext/package_converter/model/scheming_converter.py:18-32 | the keys of the map are exactly the keys that some field of the schema provides |
| SchemaMapping.NonEmpty | ckanext/package_converter/model/scheming_converter.py:74 | every kept tag is non-empty and comes from the list, and every non-empty tag is kept |
| SchemaMapping.JoinTagsSkipsEmpty | ckanext/package_converter/model/scheming_converter.py:73-74 | an empty tag anywhere in the list does not change the join |
| SchemaMapping.JoinTagsTwo | ckanext/package_converter/model/scheming_converter.py:74 | two non-empty tags join around the separator, and one tag is its own join |
| SchemaMapping.JoinTagsSplit | ckanext/package_converter/model/scheming_converter.py:73-74 | splitting the join at a separator no tag contains gives back the non-empty tags |
| SchemingValues.GetOrBlank | ckanext/package_converter/model/scheming_converter.py:44 | '' when the key is absent |
| SchemingValues.GetSingleMappedValue | ckanext/package_converter/model/scheming_converter.py:40-71 | never raises; the result is a truthy value found for the tag, or the default |
| SchemingValues.SingleTakesFirstOfList | ckanext/package_converter/model/scheming_converter.py:47-51 | a repeating field (a JSON list in a string) gives its first item when that item is truthy |
| SchemingValues.SingleTakesPlainValue | ckanext/package_converter/model/scheming_converter.py:43-47 | a truthy value that is not a repeating field is returned as it is |
| SchemingValues.SingleReadsComposite | ckanext/package_converter/model/scheming_converter.py:56-63 | a tag mapped to 'field.subfield' whose own value is missing or falsy reads the subfield out of the composite field |
| SchemingValues.SingleUnmappedIsDefault | ckanext/package_converter/model/scheming_converter.py:43-44 | a tag the map does not know reads the '' key, so on a dict without one it gives the default |
| SchemingValues.SimpleFields | ckanext/package_converter/model/scheming_converter.py:80-88 | the loop builds the simple-fields object: each truthy field value under 'element.field' |
| SchemingValues.CompositeObject | ckanext/package_converter/model/scheming_converter.py:104-110 | the composite object of one element, or nothing when its lookups raise |
| SchemingValues.AppendCompositeObjects | ckanext/package_converter/model/scheming_converter.py:103-113 | the non-empty objects of the elements are appended in order, up to the first element whose lookups raise |
| SchemingValues.GetComplexMappedValue | ckanext/package_converter/model/scheming_converter.py:76-116 | the loops and the try block compute the specified complex value: the simple object when non-empty, then the composite objects up to the first element whose lookups raise |
| SchemingValues.ElementObjectsStep | ckanext/package_converter/model/scheming_converter.py:111-112 | an element whose lookups succeed adds its object, when non-empty, and the loop goes on |
| SchemingValues.ElementObjectsStop | ckanext/package_converter/model/scheming_converter.py:103-114 | an element whose lookups raise ends the loop, and nothing after it is read |
| SchemingValues.SimpleObjectEntries | ckanext/package_converter/model/scheming_converter.py:81-88 | every value of the simple object is truthy and sits under 'element.field' for one of the field tags |
| SchemingValues.ComplexObjectsNonEmpty | ckanext/package_converter/model/scheming_converter.py:89-90 | every object in the returned list is non-empty |
| SchemingValues.ComplexObjectIsOneElementList | ckanext/package_converter/model/scheming_converter.py:101-102 | a composite value that is one JSON object is read like the list holding only that object |
| SchemingValues.ComplexSubfieldEntryRaises | ckanext/package_converter/model/scheming_converter.py:96 | a group tag mapped to a 'field.subfield' entry makes the subfields lookup raise KeyError |
| DataciteCv.ValueToDataciteCv | ckanext/package_converter/model/scheming_converter.py:124-142 | AttributeError exactly when the value is not a string (None included); for a string, the vocabulary entry its normal form names when there is one, and the default when there is none |
| DataciteCv.CvMissingGeneralRaises | ckanext/package_converter/model/scheming_converter.py:258-261 | a resource type without a resourceTypeGeneral subfield passes None, and the conversion raises AttributeError |
| DataciteCv.NormaliseSkipsSeparator | ckanext/package_converter/model/scheming_converter.py:139 | dropping a space or an underscore does not change the normal form |
| DataciteCv.CvIgnoresSeparator | ckanext/package_converter/scheming_converter_datacite_old_versions.py:30-48 | for string values, a space or an underscore anywhere does not change the match |
| DataciteCv.CvIgnoresCase | ckanext/package_converter/model/scheming_converter.py:139-140 | for string values, letter case does not change the match |
| DataciteCv.CvUnknownIsDefault | ckanext/package_converter/model/scheming_converter.py:140 | a tag without a vocabulary, or a string value that no entry names, gives the default |
| DataciteCv.CvContactPerson | ckanext/package_converter/model/scheming_converter.py:132 | 'contact person' and 'Contact_Person' are both the contributor type 'ContactPerson' |
| Flattening.FlattenedValue | ckanext/package_converter/model/scheming_converter.py:388-398 | raises TypeError iff the value cannot be iterated (not a list, dict or string); a list gives the flattening of its items |
| Flattening.FlattenItems | ckanext/package_converter/model/scheming_converter.py:390-398 | the loop over one list computes the specified flattening |
| Flattening.FlattenList | ckanext/package_converter/scheming_converter_datacite_old_versions.py:337-347 | _flatten_list computes the specified flattening of its argument |
| Flattening.OldFlattenList | ckanext/package_converter/scheming_converter_datacite_old_versions.py:349-362 | the public flatten_list gives the same result as _flatten_list |
| Flattening.Leaves | ckanext/package_converter/model/scheming_converter.py:395-398 | the leaves contain no list |
| Flattening.FlattenedInOrder | ckanext/package_converter/model/scheming_converter.py:394-398 | without reverse, the output is every non-list leaf rendered with str(), in order |
| Flattening.FlattenedLength | ckanext/package_converter/model/scheming_converter.py:388-398 | there is one string per non-list leaf, with or without reverse |
| Flattening.FlattenedFlatReversed | ckanext/package_converter/model/scheming_converter.py:392-393 | on a list without nested lists, reverse gives the strings in reverse order |
| Flattening.FlattenedPairsSwapped | ckanext/package_converter/model/scheming_converter.py:361 | with reverse, a list of [lon, lat] pairs, float pairs included, comes out as str(lat), str(lon), ... with the pairs in their original order |
| Flattening.FlattenedDefaultCoordinates | ckanext/package_converter/scheming_converter_datacite_old_versions.py:295 | the default '[]' is iterated as a string, and its characters come out reversed |
| ResourceInherit.MergeList | ckanext/package_converter/model/scheming_resource_converter.py:137-139 | the loop appends each package item that is not yet in the resource's list, comparing with Python's `==`: against the resource's plain dicts whatever the key order, against appended package OrderedDicts key order included |
| ResourceInherit.MergeSkipsReorderedItem | ckanext/package_converter/model/scheming_resource_converter.py:138 | a package item equal to a resource item up to the order of its keys is not appended |
| Json.DictEqIgnoresOrder | ckanext/package_converter/model/scheming_resource_converter.py:138 | two dicts with the same entries in another order are different values but equal under Python's `==` |
| Json.PyEqReflexive | ckanext/package_converter/model/scheming_resource_converter.py:138 | every value is equal to itself under Python's `==` |
| ResourceInherit.MergeDictLists | ckanext/package_converter/model/scheming_resource_converter.py:131-141 | merge_dict_lists gives the new contents of dict1 and the exception it raised, if any |
| ResourceInherit.MergedDictStops | ckanext/package_converter/model/scheming_resource_converter.py:132-139 | once merge_dict_lists has raised, the remaining entries keep their values |
| ResourceInherit.MergedListShape | ckanext/package_converter/model/scheming_resource_converter.py:137-139 | the merged list is the resource's items in order followed by package items only; no appended item equals a resource item or is appended twice; every package item equals a resource item or is appended |
| ResourceInherit.NonListPackageValue | ckanext/package_converter/model/scheming_resource_converter.py:135-136 | a package value that is not a list is merged as the one-element list holding it |
| ResourceInherit.MergedDictKeys | ckanext/package_converter/model/scheming_resource_converter.py:132 | merge_dict_lists keeps dict1's keys in order |
| ResourceInherit.MergedDictFails | ckanext/package_converter/model/scheming_resource_converter.py:134-136 | merge_dict_lists raises exactly when dict2 is not a dict and dict1 holds a list |
| ResourceInherit.InheritKey | ckanext/package_converter/model/scheming_resource_converter.py:147-150 | one key either replaces the package value or merges the resource's sub-dict into the package's |
| ResourceInherit.InheritFromPackage | ckanext/package_converter/scheming_converter_datacite_old_versions.py:463-487 | _inherit_from_package returns the package dict with the resource's values laid over it or, on an exception, the resource dict as the code leaves it |
| ResourceInherit.InheritLoopStops | ckanext/package_converter/model/scheming_resource_converter.py:146-150 | once the loop has raised, the later keys do not matter |
| ResourceInherit.InheritLoopKeys | ckanext/package_converter/model/scheming_resource_converter.py:146 | the loop moves the resource's keys through in order, and fails only along the way |
| ResourceInherit.InheritedEntries | ckanext/package_converter/model/scheming_resource_converter.py:143-151 | without an exception, every resource key holds what the resource decides, and a package key that the resource lacks keeps the package's value |
| ResourceInherit.MergedDictExtends | ckanext/package_converter/model/scheming_resource_converter.py:131-141 | merge_dict_lists keeps dict1's keys in order and only extends its lists at their end, whether or not it raises |
| ResourceInherit.InheritLoopShape | ckanext/package_converter/model/scheming_resource_converter.py:146-150 | the loop keeps the resource dict's keys in order; a sub-dict it merges keeps its keys and only has its lists extended; every other value is unchanged |
| ResourceInherit.InheritedOnError | ckanext/package_converter/model/scheming_resource_converter.py:152-154 | on an exception the intended result is the resource dict as passed in; the code's result differs from it only in the lists of the sub-dicts merged before the exception |
| ResourceInherit.InheritedAgrees | ckanext/package_converter/model/scheming_resource_converter.py:151 | the intended result agrees with the code whenever the loop does not raise |
| ResourceInherit.InheritFromNonDictFails | ckanext/package_converter/model/scheming_resource_converter.py:150 | a package that is not a dict makes the loop raise at the first key |
| ResourceInherit.SizeFromBytes | ckanext/package_converter/model/scheming_resource_converter.py:71-72 | a non-empty 'size' gives str(size) + ' bytes', ahead of any 'resource_size' |
| ResourceInherit.SizeFromResourceSize | ckanext/package_converter/model/scheming_resource_converter.py:73-77 | without 'size', the resource_size JSON gives the value and the upper-cased unit, defaulting to '0' and 'KB' |
| ResourceInherit.SizeRejectsNonString | ckanext/package_converter/model/scheming_resource_converter.py:70 | a 'resource_size' that is not a string fails the whole conversion at the debug line |
| ResourceInherit.OldSizeText | ckanext/package_converter/scheming_converter_datacite_old_versions.py:412-413 | the 3.1 converter appends ' bytes' with no str(), so a numeric size raises TypeError |
| Extras.ExtraEntry | ckanext/package_converter/model/envidat_iso_converter.py:434 | an extra succeeds iff it is a dict whose key is hashable (not a list or dict), and then stores its 'value' under its 'key' |
| Extras.ExtrasAsDict | ckanext/package_converter/model/envidat_iso_converter.py:431-435 | the loop computes the dict the extras specify, or the first exception |
| Extras.ExtrasDictStops | ckanext/package_converter/model/envidat_dif_converter.py:443-444 | once an extra has raised, the later ones are not looked at |
| Extras.ExtrasDictSucceeds | ckanext/package_converter/model/envidat_dif_converter.py:441-445 | the dict is built without error exactly when every extra is a dict with a hashable key |
| Extras.ExtrasLastWins | ckanext/package_converter/model/envidat_iso_converter.py:433-434 | the last extra with a given key decides its value |
| Extras.ExtrasDictKeys | ckanext/package_converter/model/envidat_iso_converter.py:433-434 | the dict's keys are exactly the keys of the extras that are dicts |
| Extras.MatchingKey | ckanext/package_converter/model/envidat_dif_converter.py:431-437 | a key that is found is a key of the dict whose folded form equals the folded tag |
| Extras.GetIgnoreCase | ckanext/package_converter/model/envidat_iso_converter.py:383-395 | the loop with its break computes the lookup as written (see Findings) |
| Extras.IgnoreCaseFoldsTag | ckanext/package_converter/model/envidat_iso_converter.py:384-392 | tags that are equal after folding look up the same value |
| Extras.IgnoreCaseFindsFirst | ckanext/package_converter/model/envidat_dif_converter.py:431-438 | when the i-th key is the first key folding like the tag, both the written and the intended lookup return its value |
| Extras.IgnoreCaseMissing | ckanext/package_converter/model/envidat_dif_converter.py:438 | with string keys none of which matches, the intended lookup gives the default |
| Extras.IgnoreCaseStringKeys | ckanext/package_converter/model/envidat_iso_converter.py:388-391 | a dict whose keys are all strings is searched without error |
| Extras.IgnoreCaseEmptyKeyAnswers | ckanext/package_converter/model/envidat_iso_converter.py:387-395 | as written, an entry with the empty key answers for an unmatched tag; the intended lookup gives the default |
| Extras.TagName | ckanext/package_converter/model/envidat_csv_converter.py:98 | the upper-cased display name, or '' when absent; AttributeError iff the tag is not a dict or its name is not a string |
| Extras.TagNames | ckanext/package_converter/model/envidat_csv_converter.py:95-100 | one name per tag, in order; it fails iff some tag fails, with AttributeError |
| EnvidatIso.CapCode | ckanext/package_converter/model/envidat_iso_converter.py:419-429 | a falsy text is returned unchanged; AttributeError iff the text is truthy and not a string; a string always gives a string |
| EnvidatIso.CapCodeNoSpace | ckanext/package_converter/model/envidat_iso_converter.py:421-427 | the camel-case code of any string holds no space |
| EnvidatIso.CapCodeMultiWord | ckanext/package_converter/model/envidat_iso_converter.py:422-425 | with several words, the first is lower-cased, each later word capitalized, and they are glued without space |
| EnvidatIso.CapCodeOneWord | ckanext/package_converter/model/envidat_iso_converter.py:426-427 | a single word has only its first character lower-cased |
| EnvidatIso.CapCodeTwoWords | ckanext/package_converter/model/envidat_iso_converter.py:422-425 | two words give the first lower-cased followed by the second capitalized |
| EnvidatIso.CapCodeOnGoing | ckanext/package_converter/model/envidat_iso_converter.py:419-425 | 'on going' gives 'onGoing' |
| EnvidatIso.CapCodeBlank | ckanext/package_converter/model/envidat_iso_converter.py:421-427 | a blank text raises IndexError as written; the intended version gives '' (see Findings) |
| EnvidatIso.IsoLanguageCode | ckanext/package_converter/model/envidat_iso_converter.py:398-400 | a list or dict code cannot be a dict key and raises TypeError; any other code gives a three-letter code |
| EnvidatIso.TableCodesHaveThreeLetters | ckanext/package_converter/model/envidat_iso_converter.py:399 | every table entry is three letters long |
| EnvidatIso.IsoLanguageCodes | ckanext/package_converter/model/envidat_iso_converter.py:399-400 | en, de, it, fr and ro give Eng, Ger, Ita, Fre and Roh; any other hashable value gives Eng; a list or a dict raises TypeError |
| EnvidatIso.GetOrMissing | ckanext/package_converter/model/envidat_iso_converter.py:373-381 | the element is either filled with a truthy value or flagged missing; an error occurs iff the data is not a dict |
| EnvidatIso.GetOrMissingExact | ckanext/package_converter/model/envidat_iso_converter.py:377-381 | without ignore_case: the value under the exact tag when it is present and truthy, otherwise missing |
| EnvidatIso.GetOrMissingFolded | ckanext/package_converter/model/envidat_iso_converter.py:374-376 | with ignore_case: the value under the first key that folds like the tag decides |
| EnvidatIso.GetOrMissingNoFold | ckanext/package_converter/model/envidat_iso_converter.py:374-381 | with ignore_case and no key that folds like the tag, the element is flagged missing |
| EnvidatIso.IsABoxSound | ckanext/package_converter/model/envidat_iso_converter.py:438-446 | a true answer means a closed five-point ring of an axis-aligned rectangle with non-zero width and height |
| EnvidatIso.IsABoxComplete | ckanext/package_converter/model/envidat_iso_converter.py:441-445 | every such rectangle traversed from (x0, y0) through (x0, y2) is recognised |
| EnvidatIso.IsABoxOneOrientation | ckanext/package_converter/model/envidat_iso_converter.py:441-442 | the same rectangle traversed the other way round is not recognised |
| EnvidatIso.IsABoxDegenerate | ckanext/package_converter/model/envidat_iso_converter.py:443-444 | a ring of zero width or height is not a box |
| EnvidatIso.IsABoxRaises | ckanext/package_converter/model/envidat_iso_converter.py:439-442 | only a closed five-point ring can raise, at a point that is not a list of two or more |
| EnvidatIso.Keywords | ckanext/package_converter/model/envidat_iso_converter.py:453 | one CharacterString element per name, in order |
| EnvidatIso.GetKeywords | ckanext/package_converter/model/envidat_iso_converter.py:449-454 | the loop gives the keyword elements of the tags' upper-cased display names, or the error the first bad tag raises |
| EnvidatIso.Protocol | ckanext/package_converter/model/envidat_iso_converter.py:458 | the protocol holds no ':' |
| EnvidatIso.ProtocolBeforeColon | ckanext/package_converter/model/envidat_iso_converter.py:458-463 | the protocol is the text before the first ':' (all of it when there is none), upper-cased |
| EnvidatIso.OnlineResource | ckanext/package_converter/model/envidat_iso_converter.py:457-470 | the element is a single gmd:CI_OnlineResource |
| EnvidatIso.OnlineResourceFields | ckanext/package_converter/model/envidat_iso_converter.py:462-469 | the element keeps the URL, upper-cases protocol and name, and gives the function as both code-list value and text |
| EnvidatDif.GetKeywords | ckanext/package_converter/model/envidat_dif_converter.py:366-371 | the loop gives the tags' upper-cased display names in order, or the error the first bad tag raises |
| EnvidatDif.Triple | ckanext/package_converter/model/envidat_dif_converter.py:422 | the keyword triple as a three-element list |
| EnvidatDif.ScienceKeywords | ckanext/package_converter/model/envidat_dif_converter.py:374-424 | a successful result always has three keywords |
| EnvidatDif.ScienceKeywordsCustom | ckanext/package_converter/model/envidat_dif_converter.py:378-380 | a science_keywords extra with three comma-separated parts is used as it is, upper-cased |
| EnvidatDif.ScienceKeywordsGuessed | ckanext/package_converter/model/envidat_dif_converter.py:383-424 | otherwise the organisation's table entry is used, or the default for an unlisted name, and it starts with EARTH SCIENCE |
| EnvidatDif.EarthScienceFirst | ckanext/package_converter/model/envidat_dif_converter.py:388-422 | every guessed list starts with EARTH SCIENCE |
| EnvidatDif.Dedup | ckanext/package_converter/model/envidat_dif_converter.py:454-455 | the result holds the same values as the input, with no repetitions |
| EnvidatDif.DedupPrefix | ckanext/package_converter/model/envidat_dif_converter.py:454-455 | deduplicating a prefix gives a prefix, so values keep the order of their first occurrence |
| EnvidatDif.Picked | ckanext/package_converter/model/envidat_dif_converter.py:452-453 | every value picked is non-empty and lower-case |
| EnvidatDif.PickedHas | ckanext/package_converter/model/envidat_dif_converter.py:450-455 | every truthy string a resource gives shows up, lower-cased |
| EnvidatDif.PickedFrom | ckanext/package_converter/model/envidat_dif_converter.py:450-455 | everything in the result was picked from some resource |
| EnvidatDif.PickedStops | ckanext/package_converter/model/envidat_dif_converter.py:450-453 | a failure on a prefix of the resources is the failure of the whole |
| EnvidatDif.Collected | ckanext/package_converter/model/envidat_dif_converter.py:449-456 | the collected values are non-empty, lower-case and without repetitions |
| EnvidatDif.CollectFromResources | ckanext/package_converter/model/envidat_dif_converter.py:461-471 | the loop over the resources computes the collected values of the picked field |
| EnvidatDif.FormatOf | ckanext/package_converter/model/envidat_dif_converter.py:451 | the format lookup raises iff the resource is not a dict |
| EnvidatDif.FormatPrecedence | ckanext/package_converter/model/envidat_dif_converter.py:451 | 'format' wins whenever present, even with an empty value; then 'mimetype', then 'mimetype_inner', then '' |
| EnvidatDif.GetResourceFormats | ckanext/package_converter/model/envidat_dif_converter.py:448-456 | the loop gives the resources' truthy formats, lower-cased, once each, in order of first occurrence |
| EnvidatDif.FormatsListed | ckanext/package_converter/model/envidat_dif_converter.py:452-455 | every truthy format a resource gives shows up, lower-cased |
| EnvidatDif.Level | ckanext/package_converter/model/envidat_dif_converter.py:462-466 | the intended level lookup never raises (see Findings) |
| EnvidatDif.GetResourceRestrictions | ckanext/package_converter/model/envidat_dif_converter.py:459-471 | the loop gives the resources' truthy restriction levels, lower-cased, once each |
| EnvidatDif.RestrictedNonObject | ckanext/package_converter/model/envidat_dif_converter.py:463-466 | as written, 'restricted' that parses to a number raises AttributeError; as intended it contributes nothing |
| EnvidatDif.LevelsFolded | ckanext/package_converter/model/envidat_dif_converter.py:467-470 | levels are collected case-insensitively, so 'Public' and 'public' are one entry |
| EnvidatDif.LanguagePrefix | ckanext/package_converter/model/envidat_dif_converter.py:478 | the prefix is the first two characters, or the whole code when it is shorter |
| EnvidatDif.DifLanguageCode | ckanext/package_converter/model/envidat_dif_converter.py:477-480 | AttributeError iff the code is not a string |
| EnvidatDif.DifLanguageFirstTwo | ckanext/package_converter/model/envidat_dif_converter.py:478 | only the first two characters count, and their case does not |
| EnvidatDif.DifLanguageCodes | ckanext/package_converter/model/envidat_dif_converter.py:479-480 | en, de, it and fr give English, German, Italian and French; any other prefix gives English |
| EnvidatDif.FlattenUntilNumber | ckanext/package_converter/model/envidat_dif_converter.py:483-485 | the flattening ends at a list whose first entry is a number |
| EnvidatDif.Evens | ckanext/package_converter/model/envidat_dif_converter.py:486 | xs[::2]: the entries at even positions, in order |
| EnvidatDif.Numbers | ckanext/package_converter/model/envidat_dif_converter.py:488 | the entries as numbers; an error iff one entry is a list |
| EnvidatDif.MinOf | ckanext/package_converter/model/envidat_dif_converter.py:488 | min returns a member that is no greater than any other |
| EnvidatDif.MaxOf | ckanext/package_converter/model/envidat_dif_converter.py:488 | max returns a member that is no smaller than any other |
| EnvidatDif.BoundingRectangle | ckanext/package_converter/model/envidat_dif_converter.py:482-488 | the rectangle is four values with west <= east and south <= north |
| EnvidatDif.BoundingRectangleContains | ckanext/package_converter/model/envidat_dif_converter.py:486-488 | every longitude (even entry) and latitude (odd entry) of the flattened coordinates lies within the rectangle |
| EnvidatDif.BoundingRectangleAttained | ckanext/package_converter/model/envidat_dif_converter.py:488 | each bound of the rectangle is one of the flattened coordinates |
| EnvidatDif.GetBoundingRectangle | ckanext/package_converter/model/envidat_dif_converter.py:483-488 | the while loop computes the specified bounding rectangle |
| EnvidatDif.BoundingRectanglePoint | ckanext/package_converter/model/envidat_dif_converter.py:486-488 | a single point is its own rectangle, and a lone number has no latitude (ValueError) |
| EnvidatDif.BoundingRectangleEmpty | ckanext/package_converter/model/envidat_dif_converter.py:484 | an empty geometry raises IndexError |
| Geometry.At | ckanext/package_converter/model/envidat_iso_converter.py:441 | indexing succeeds iff the value is a list that is long enough, and then gives that item |
| Geometry.Flattened | ckanext/package_converter/model/envidat_dif_converter.py:485 | the one-level flattening succeeds iff every entry is a list, and its size is smaller by the number of lists removed |
| Geometry.FlattenedItems | ckanext/package_converter/model/envidat_dif_converter.py:485 | every item of every sub-list is in the flattening |

## Left out

- Registry start-up. The registration in `model/__init__.py` calls
  `MetadataFormats()._add_format`, which the registry does not define
  (it has `add_metadata_format`). The model offers only the defined
  registry operations.
- Singletons. `MetadataFormats()` and `Converters()` always return one
  shared instance. The model passes the registry object explicitly.
- The first `get_metadata_formats(self)` (metadata_format.py:98-99). It is
  shadowed by the second definition (101-109), so it is not modelled.
- `add_converter_by_name` (converter.py:114-125). It imports a module by
  name at run time.
- XML validation (`XMLRecord.validate`, record.py:64-95). It fetches an XSD
  over the network and runs lxml.
- The XSLT transformation. It is an uninterpreted parameter
  (`Libs.xslt`). Likewise `json`, xmltodict, `repr` and NFKD
  normalisation; lemmas state the round trips they need as requirements.
- The whole-record renderers. The EnviDat converters' `convert` methods
  for ISO, DIF, DataCite, BibTeX, RIS, DCAT-AP, README and schema.org are a
  `Rendered` converter kind whose renderer is a parameter. Only the helpers
  listed above are modelled.
- `_get_publication_date` (ISO): date parsing. `_is_counter_clockwise` and
  the DIF centre points: floating-point geometry.
- Float rounding. Floats are exact reals, in `Json` and in the
  coordinates. `str()` of a float, which keeps 12 significant digits in
  Python 2, is the `Libs.repr` parameter.
- Text handling is ASCII-only. `Text.Upper`, `Lower`, `Strip`, `Words`
  and `Capitalize` map case and find whitespace for ASCII characters
  only, where Python 2's unicode methods follow the Unicode tables: the
  tag u'ökologie' upper-cases to u'ÖKOLOGIE' in Python and to "öKOLOGIE"
  in the model, and u'\xa0' is blank in Python only. The members below
  carry this gap.
- Extras.TagName: upper-cases the display name for ASCII letters only.
- Extras.TagNames: upper-cases every tag name for ASCII letters only.
- EnvidatIso.GetKeywords: upper-cases the tag names for ASCII letters only.
- EnvidatDif.GetKeywords: upper-cases the tag names for ASCII letters only.
- EnvidatIso.OnlineResourceFields: upper-cases the resource name and the
  protocol for ASCII letters only.
- EnvidatIso.CapCode: strips and splits at ASCII whitespace only, so a
  text of Unicode blanks such as u'\xa0', which raises IndexError in
  Python, is returned unchanged; case is mapped for ASCII letters only.
- EnvidatDif.ScienceKeywordsCustom: upper-cases for ASCII letters only,
  and uses the intended lookup (see EnvidatDif.ScienceKeywords).
- CsvConverter.CsvConvertDataset: upper-cases keys for ASCII letters
  only; `str(key)` of a non-ASCII unicode key raises UnicodeEncodeError
  in Python 2, which the model does not raise.
- MetadataFormat.IsCompatible: lower-cases the names and versions for
  ASCII letters only, so CompatibleIff, CompatibleReflexive and
  CompatibleSymmetric speak of that folding.
- ResourceInherit.SizeText: upper-cases the size unit for ASCII letters
  only (the SizeFromResourceSize row).
- EnvidatIso.Protocol: upper-cases the protocol for ASCII letters only
  (also the ProtocolBeforeColon row).
- Extras.ExtrasAsDict: keys that differ in kind but are equal under
  `==` (1, 1.0 and True) are kept apart; a Python dict merges them. The
  extras' keys are strings in CKAN.
- Dict order. A plain Python 2 dict iterates in hash order, which the
  program does not control; the model fixes one order, the order of the
  association list. The members below state results in that order.
- Extras.IgnoreCaseFindsFirst: "first" is the order of the association
  list; Python's `data_dict.keys()` visits the keys of the extras dict in
  hash order, so when several keys fold like the tag, which one Python
  finds first is not determined by the model.
- EnvidatIso.GetOrMissingFolded: the same: the first folding key in the
  model's order decides, where Python's order is the hash order.
- CsvConverter.CsvLayout: the columns follow the order of the package
  dict's association list, where `dataset_dict.items()` gives hash order.
- CsvConverter.SubfieldColumnsAreTruthyEntries: "in order" is the order of
  the association list, where `value_dict.items()` gives hash order.
- ResourceInherit.MergeList (and the `MergedList` function that
  specifies it): two package items, both OrderedDicts,
  compare key order included, and a package item and a resource item,
  a plain dict, compare as Python's dict `==`. The model assumes that
  the list being extended holds the resource's plain dicts followed by
  package items, which is what `_inherit_from_package` passes it.
- `__str__`, `__repr__` and `__unicode__`. They only render text.
- The HTTP, controller, blueprint and logic layers. These are CKAN plumbing.
- The tests.
- EnvidatDif.BoundingRectangle: Python 2 orders any two values, a
  number before any list, so `min` and `max` never raise TypeError on
  the alternating entries. The model raises TypeError whenever one of
  them is a list.
- EnvidatDif.Numbers: raises TypeError at a list entry, where Python 2's
  `min` and `max` would compare it.
- EnvidatIso.IsoLanguageCode and EnvidatDif.DifLanguageCode: `title()` is
  modelled as capitalising the first letter. This is exact for the
  single-word entries of both tables, but not for arbitrary text.
- EnvidatIso.OnlineResource: `url` and `name` are strings, so the
  AttributeError on a non-string is not modelled.
- EnvidatIso.GetOrMissing: uses the intended `_get_ignore_case` (see
  Findings).
- EnvidatDif.ScienceKeywords: uses the intended `_get_ignore_case` where
  envidat_dif_converter.py:378 runs the one as written, so an extras
  entry under the empty key '' gives Python's result from that entry
  (extras `{'': 'a,b,c'}` give A, B and C), while the model uses the
  organisation's keywords.
- EnvidatDif.ScienceKeywordsGuessed: stated for the value the intended
  lookup gives; with no science_keywords extra but one under '', Python
  takes that entry's value instead.
- `scheming_converter.py` defines `get_single_mapped_value`,
  `_get_complex_mapped_value`, `_joinTags`, `_valueToDataciteCV` and
  `_flatten_list` without `self` and then calls them as methods, and it
  uses `json`, `sys`, `collections` and `log` without importing them. The
  model follows the evident meaning, the 3.1 converter's versions, and
  assumes the standard modules and a logger are in scope.
- `tests/test_plugin.py:67` calls `get_metadata_formats_dict`, which the
  registry does not define. It is not modelled.
- Integer widths are unbounded. Python integers are too.

## Findings

| source | as written | input that shows it | evidently intended | confidence | as-written member | corrected member |
|---|---|---|---|---|---|---|
| ckanext/package_converter/model/envidat_iso_converter.py:419-429 | `_cap_code` strips a truthy text and then indexes `text[0]` | `' '` strips to `''`, so `text[0]` raises IndexError | a blank text gives `''` | not executed | EnvidatIso.CapCodeBlank | EnvidatIso.CapCode |
| ckanext/package_converter/model/envidat_dif_converter.py:426-438 | `_get_ignore_case` starts from `tag_key = ''` and returns `data_dict.get(tag_key)` even when no key matched | extras `{'': 'x'}` and tag `'purpose'` give `'x'` | the default when no key matches | not executed | Extras.IgnoreCaseEmptyKeyAnswers | Extras.IgnoreCaseMissing |
| ckanext/package_converter/model/envidat_dif_converter.py:459-471 | `restricted.get('level','')` is outside the try block around `json.loads` | a resource with `restricted` = `'5'` raises AttributeError and aborts the conversion | a value that is not an object contributes nothing, like text that does not parse | not executed | EnvidatDif.RestrictedNonObject | EnvidatDif.GetResourceRestrictions |
| ckanext/package_converter/model/scheming_resource_converter.py:130-154 | on an exception, `_inherit_from_package` returns the resource dict, whose sub-dicts the loop has already merged in place | resource titles merged with the package title before plain-text package descriptions raise | the resource dict as passed in | not executed | ResourceInherit.InheritPartialMerge | ResourceInherit.InheritedOnError |

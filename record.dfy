/**
 * Records: a metadata format paired with content, set once and never
 * changed.  An XML record also holds the dict xmltodict parsed from its
 * content; a JSON record holds the dict its content serialises.
 */
module Records {
  import opened Wrappers
  import opened Json
  import opened MetadataFormat
  import opened Libraries

  datatype Record =
    | Plain(format: Format, content: string)
    | XmlRecord(format: Format, content: string, xmlDict: Json)
    | JsonRecord(format: Format, content: string, jsonDict: Json)

  /** XMLRecord(metadata_format, content): fails with the parser when content is not XML. */
  function NewXmlRecord(libs: Libs, format: Format, content: string): (r: Result<Record>)
    ensures r.Ok? <==> libs.xmlParse(content).Some?
    ensures r.Err? ==> r.error == ParseError
    ensures r.Ok? ==> (r.value.XmlRecord? && r.value.format == format && r.value.content == content
                       && Some(r.value.xmlDict) == libs.xmlParse(content))
  {
    match libs.xmlParse(content)
    case Some(d) => Ok(XmlRecord(format, content, d))
    case None => Err(ParseError)
  }

  /** XMLRecord.from_record: the same format and content, now parsed. */
  function XmlFromRecord(libs: Libs, record: Record): (r: Result<Record>)
    ensures r.Ok? ==> r.value.XmlRecord? && r.value.format == record.format && r.value.content == record.content
    ensures r.Err? <==> libs.xmlParse(record.content).None?
  {
    NewXmlRecord(libs, record.format, record.content)
  }

  /** XMLRecord.from_dict: a record whose content is the unparsed dict. */
  function XmlFromDict(libs: Libs, format: Format, xmlDict: Json): (r: Result<Record>)
    ensures r.Ok? ==> r.value.XmlRecord? && r.value.format == format && r.value.content == libs.xmlUnparse(xmlDict)
  {
    NewXmlRecord(libs, format, libs.xmlUnparse(xmlDict))
  }

  /** from_dict followed by reading the dict back gives the dict it was built from. */
  lemma XmlFromDictRoundTrip(libs: Libs, format: Format, xmlDict: Json)
    requires XmlRoundTrip(libs) && WellFormed(xmlDict)
    ensures XmlFromDict(libs, format, xmlDict).Ok?
    ensures XmlFromDict(libs, format, xmlDict).value.xmlDict == xmlDict
  {
    assert libs.xmlParse(libs.xmlUnparse(xmlDict)) == Some(xmlDict);
  }

  /** Re-reading an XML record as an XML record gives the same record back. */
  lemma XmlFromRecordIdempotent(libs: Libs, record: Record)
    requires record.XmlRecord? && libs.xmlParse(record.content) == Some(record.xmlDict)
    ensures XmlFromRecord(libs, record) == Ok(record)
  {
  }

  /** JSONRecord(metadata_format, json_dict): the content is the dict serialised once. */
  function NewJsonRecord(libs: Libs, format: Format, jsonDict: Json): (r: Record)
    ensures r.JsonRecord? && r.format == format && r.jsonDict == jsonDict
    ensures r.content == libs.dumps(jsonDict)
  {
    JsonRecord(format, libs.dumps(jsonDict), jsonDict)
  }

  /** JSONRecord.from_record: keeps the format and parses the content; ValueError when it is not JSON. */
  function JsonFromRecord(libs: Libs, record: Record): (r: Result<Record>)
    ensures r.Ok? <==> libs.loads(record.content).Some?
    ensures r.Err? ==> r.error == ValueError
    ensures r.Ok? ==> (r.value.JsonRecord? && r.value.format == record.format
                       && Some(r.value.jsonDict) == libs.loads(record.content))
  {
    match libs.loads(record.content)
    case Some(d) => Ok(NewJsonRecord(libs, record.format, d))
    case None => Err(ValueError)
  }

  /** from_record(JSONRecord(f, d)) is JSONRecord(f, d) again: same format, same dict, same content. */
  lemma JsonFromRecordRoundTrip(libs: Libs, format: Format, jsonDict: Json)
    requires JsonRoundTrip(libs) && WellFormed(jsonDict)
    ensures JsonFromRecord(libs, NewJsonRecord(libs, format, jsonDict)) == Ok(NewJsonRecord(libs, format, jsonDict))
  {
    assert libs.loads(libs.dumps(jsonDict)) == Some(jsonDict);
  }
}

/**
 * Converters: an input format, an output format, the three Boolean gates
 * that decide which formats and records they accept, and convert.
 * Converters define no equality of their own, so two converters are the
 * same only when they are the same object; the model makes them class
 * instances whose fields never change.
 */
module Converting {
  import opened Wrappers
  import opened Json
  import opened MetadataFormat
  import opened Libraries
  import opened Records
  import CustomConverter
  import CsvConverter
  import Text

  /**
   * What a converter's convert does: Converter and BaseConverter raise
   * NotImplementedError; XSLConverter applies a stylesheet to an XML
   * record; the plug-in's CustomConverter and the CSV converter are
   * modelled in full; every other EnviDat converter renders the package
   * dict of a JSON record by a function that is not part of this model,
   * and wraps the text in an XML record when its output is XML.
   */
  datatype Kind =
    | Abstract
    | Xsl(xslPath: string)
    | Custom
    | Csv
    | Rendered(render: Json -> Result<string>, xmlOutput: bool)

  class Converter {
    const input: Format
    const output: Format
    const kind: Kind

    constructor(input: Format, output: Format, kind: Kind)
      ensures this.input == input && this.output == output && this.kind == kind
    {
      this.input := input;
      this.output := output;
      this.kind := kind;
    }

    /** can_convert_from_format: the given format is compatible with the converter's input. */
    predicate CanConvertFromFormat(inputFormat: Format, checkVersion: bool := false) {
      IsCompatible(inputFormat, input, checkVersion)
    }

    /** can_convert_to_format: the given format is compatible with the converter's output. */
    predicate CanConvertToFormat(outputFormat: Format, checkVersion: bool := false) {
      IsCompatible(outputFormat, output, checkVersion)
    }

    /** can_convert_format: the input gate, and the output gate unless no output format is given. */
    predicate CanConvertFormat(inputFormat: Format, outputFormat: Option<Format> := None, checkVersion: bool := false) {
      CanConvertFromFormat(inputFormat, checkVersion)
      && (outputFormat.None? || CanConvertToFormat(outputFormat.value, checkVersion))
    }

    /** can_convert: the record's format passes the input gate; an XSL converter also wants an XML record. */
    predicate CanConvert(record: Record, checkVersion: bool := false) {
      CanConvertFromFormat(record.format, checkVersion) && (kind.Xsl? ==> record.XmlRecord?)
    }

    /** The package dict of a JSON record (get_json_dict); other records have no such method. */
    static function JsonDict(record: Record): (r: Result<Json>)
      ensures r.Ok? <==> record.JsonRecord?
    {
      if record.JsonRecord? then Ok(record.jsonDict) else Err(AttributeError)
    }

    /** convert */
    function Convert(libs: Libs, record: Record): (r: Result<Record>)
      ensures kind.Abstract? ==> r == Err(NotImplementedError)
      ensures !kind.Abstract? && !CanConvert(record) ==> r == Err(TypeError)
      ensures r.Ok? ==> CanConvert(record) && r.value.format == output
    {
      if kind.Abstract? then Err(NotImplementedError)
      else if !CanConvert(record) then Err(TypeError)
      else match kind
        case Xsl(xslPath) =>
          var converted := Plain(output, libs.xslt(record.content, xslPath));
          if IsXmlFormat(output) then XmlFromRecord(libs, converted) else Ok(converted)
        case Custom =>
          var d :- JsonDict(record);
          var content :- CustomConverter.CustomContent(libs, d);
          Ok(Plain(output, content))
        case Csv =>
          var d :- JsonDict(record);
          var content :- CsvConverter.CsvOf(libs, d);
          Ok(Plain(output, content))
        case Rendered(render, xmlOutput) =>
          var d :- JsonDict(record);
          var content :- render(d);
          if xmlOutput then XmlFromRecord(libs, Plain(output, content)) else Ok(Plain(output, content))
    }
  }

  /** can_convert_format is the conjunction of the two gates, with None switching the second off. */
  lemma CanConvertFormatIff(c: Converter, inputFormat: Format, outputFormat: Option<Format>, checkVersion: bool)
    ensures c.CanConvertFormat(inputFormat, outputFormat, checkVersion) <==>
      (Text.Lower(inputFormat.name) == Text.Lower(c.input.name)
       && (checkVersion ==> Text.Lower(inputFormat.version) == Text.Lower(c.input.version))
       && (outputFormat.Some? ==>
            Text.Lower(outputFormat.value.name) == Text.Lower(c.output.name)
            && (checkVersion ==>
                  Text.Lower(outputFormat.value.version) == Text.Lower(c.output.version))))
  {
    CompatibleIff(inputFormat, c.input, checkVersion);
    if outputFormat.Some? {
      CompatibleIff(outputFormat.value, c.output, checkVersion);
    }
  }

  /**
   * XSLConverter.convert: a TypeError for anything but an XML record of a
   * compatible format; otherwise the transformed content in the output
   * format, as an XML record exactly when the output format is an XML
   * format (otherwise the plain record is returned unparsed).
   */
  lemma XslConvertShape(libs: Libs, c: Converter, record: Record)
    requires c.kind.Xsl?
    ensures !record.XmlRecord? ==> c.Convert(libs, record) == Err(TypeError)
    ensures c.CanConvert(record) && !IsXmlFormat(c.output) ==>
      c.Convert(libs, record) == Ok(Plain(c.output, libs.xslt(record.content, c.kind.xslPath)))
    ensures c.Convert(libs, record).Ok? ==>
      (c.Convert(libs, record).value.XmlRecord? <==> IsXmlFormat(c.output))
    ensures c.Convert(libs, record).Ok? ==>
      c.Convert(libs, record).value.content == libs.xslt(record.content, c.kind.xslPath)
  {
  }

  /** BaseConverter(output_format): the input is the first registered 'ckan' format; IndexError when there is none. */
  method NewBaseConverter(formats: MetadataFormats, output: Format, kind: Kind) returns (r: Result<Converter>)
    ensures r.Ok? <==> LookupFormats(formats.formats, "ckan", "") != []
    ensures r.Err? ==> r.error == IndexError
    ensures r.Ok? ==> (fresh(r.value) && r.value.input == LookupFormats(formats.formats, "ckan", "")[0]
                       && r.value.output == output && r.value.kind == kind)
  {
    var ckan := formats.GetMetadataFormats("ckan");
    if |ckan| == 0 {
      return Err(IndexError);
    }
    var c := new Converter(ckan[0], output, kind);
    return Ok(c);
  }

  /** CustomConverter(): output the first 'custom' format, input the first 'ckan' format. */
  method NewCustomConverter(formats: MetadataFormats) returns (r: Result<Converter>)
    ensures r.Ok? <==> (LookupFormats(formats.formats, "custom", "") != [] && LookupFormats(formats.formats, "ckan", "") != [])
    ensures r.Err? ==> r.error == IndexError
    ensures r.Ok? ==> (fresh(r.value) && r.value.kind == Custom
                       && r.value.output == LookupFormats(formats.formats, "custom", "")[0]
                       && r.value.input == LookupFormats(formats.formats, "ckan", "")[0])
  {
    var custom := formats.GetMetadataFormats("custom");
    if |custom| == 0 {
      return Err(IndexError);
    }
    r := NewBaseConverter(formats, custom[0], Custom);
  }

  /** CsvConverter(): output the first 'csv' format, input the first 'ckan' format. */
  method NewCsvConverter(formats: MetadataFormats) returns (r: Result<Converter>)
    ensures r.Ok? <==> (LookupFormats(formats.formats, "csv", "") != [] && LookupFormats(formats.formats, "ckan", "") != [])
    ensures r.Err? ==> r.error == IndexError
    ensures r.Ok? ==> (fresh(r.value) && r.value.kind == Csv
                       && r.value.output == LookupFormats(formats.formats, "csv", "")[0]
                       && r.value.input == LookupFormats(formats.formats, "ckan", "")[0])
  {
    var csv := formats.GetMetadataFormats("csv");
    if |csv| == 0 {
      return Err(IndexError);
    }
    r := NewBaseConverter(formats, csv[0], Csv);
  }

  /**
   * CustomConverter.convert on a JSON record of a compatible format: a
   * plain record in the custom format whose content names the package.
   */
  lemma CustomConvertNamesPackage(libs: Libs, c: Converter, record: Record, name: string)
    requires c.kind.Custom? && record.JsonRecord? && c.CanConvertFromFormat(record.format)
    requires record.jsonDict.JObj? && Lookup(record.jsonDict, "name") == Some(JStr(name))
    ensures c.Convert(libs, record) == Ok(Plain(c.output, CustomConverter.Prefix + name))
  {
  }

  /** CustomConverter.convert on a record of an incompatible format raises TypeError. */
  lemma CustomConvertRejects(libs: Libs, c: Converter, record: Record)
    requires c.kind.Custom? && !c.CanConvertFromFormat(record.format)
    ensures c.Convert(libs, record) == Err(TypeError)
  {
  }
}

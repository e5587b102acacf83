/**
 * Metadata formats (name, version, type, file extension, description) and
 * the registry that maps a format name to its formats, most recently
 * added first.
 */
module MetadataFormat {
  import Text
  import Dicts

  datatype FormatType = XML | JSON | TEXT | BINARY | CSV | RDF | OTHER

  /** The enumeration value of a format type, also its default file extension. */
  function TypeValue(t: FormatType): (r: string)
    ensures r != []
  {
    match t
    case XML => "xml"
    case JSON => "json"
    case TEXT => "txt"
    case BINARY => "bin"
    case CSV => "csv"
    case RDF => "rdf"
    case OTHER => "other"
  }

  /**
   * The Python class of a format object and the attributes that class adds:
   * MetadataFormat itself, XMLMetadataFormat (an XSD URL) or the plug-in's
   * CustomMetadataFormat (a custom parameter).
   */
  datatype FormatClass = Base | XmlFormat(xsdUrl: string) | CustomFormat(customParameter: string)

  datatype Format = Format(
    name: string,
    version: string,
    formatType: FormatType,
    fileExtension: string,
    description: string,
    cls: FormatClass)

  /** MetadataFormat(format_name, version, format_type, file_extension, description) */
  function NewFormat(name: string, version: string, formatType: FormatType := OTHER,
                     fileExtension: string := "", description: string := ""): (f: Format)
    ensures f.name == name && f.version == version && f.formatType == formatType
    ensures f.description == description && f.cls == Base
    ensures f.fileExtension != []
    ensures fileExtension != [] ==> f.fileExtension == fileExtension
    ensures fileExtension == [] ==> f.fileExtension == TypeValue(formatType)
  {
    Format(name, version, formatType, if fileExtension != "" then fileExtension else TypeValue(formatType),
           description, Base)
  }

  /** XMLMetadataFormat(format_name, version, xsd_url, description) */
  function NewXmlFormat(name: string, version: string, xsdUrl: string, description: string := ""): (f: Format)
    ensures f.formatType == XML && f.fileExtension == "xml" && f.cls == XmlFormat(xsdUrl)
    ensures f.name == name && f.version == version && f.description == description
  {
    var base := NewFormat(name, version, XML, "", description);
    base.(cls := XmlFormat(xsdUrl))
  }

  predicate IsXmlFormat(f: Format) { f.cls.XmlFormat? }

  /** isinstance(other, self.__class__) for the three format classes. */
  predicate IsInstanceOf(other: Format, self: Format) {
    match self.cls
    case Base => true
    case XmlFormat(_) => other.cls.XmlFormat?
    case CustomFormat(_) => other.cls.CustomFormat?
  }

  datatype Attr = AStr(s: string) | AType(t: FormatType)

  /** The attribute dictionary (__dict__) of a format object. */
  function AttrDict(f: Format): (d: map<string, Attr>)
    ensures "format_name" in d && d["format_name"] == AStr(f.name)
    ensures "version" in d && d["version"] == AStr(f.version)
  {
    var common := map[
      "format_name" := AStr(f.name),
      "version" := AStr(f.version),
      "format_type" := AType(f.formatType),
      "file_extension" := AStr(f.fileExtension),
      "description" := AStr(f.description)];
    match f.cls
    case Base => common
    case XmlFormat(u) => common["xsd_url" := AStr(u)]
    case CustomFormat(p) => common["custom_parameter" := AStr(p)]
  }

  /** MetadataFormat.__eq__: same class and identical attributes. */
  predicate Eq(self: Format, other: Format) {
    IsInstanceOf(other, self) && AttrDict(self) == AttrDict(other)
  }

  /** MetadataFormat.__ne__ */
  predicate Ne(self: Format, other: Format) {
    !Eq(self, other)
  }

  /** __eq__ on formats is exactly equality of the values, hence symmetric. */
  lemma EqIsEquality(a: Format, b: Format)
    ensures Eq(a, b) <==> a == b
    ensures Ne(a, b) <==> a != b
  {
    if Eq(a, b) {
      var da, db := AttrDict(a), AttrDict(b);
      assert da["format_type"] == db["format_type"];
      assert da["file_extension"] == db["file_extension"];
      assert da["description"] == db["description"];
      match a.cls
      case Base =>
        assert "xsd_url" !in da && "custom_parameter" !in da;
      case XmlFormat(u) =>
        assert da["xsd_url"] == db["xsd_url"];
      case CustomFormat(p) =>
        assert da["custom_parameter"] == db["custom_parameter"];
    }
  }

  /**
   * MetadataFormat.is_compatible.  Its first test is __eq__, written here
   * as equality of the values, which EqIsEquality shows it is;
   * CompatibleUsesEq states the predicate with Eq itself.
   */
  predicate IsCompatible(self: Format, other: Format, checkVersion: bool := false) {
    self == other
    || ((!checkVersion || Text.Lower(self.version) == Text.Lower(other.version))
        && Text.Lower(self.name) == Text.Lower(other.name))
  }

  /** is_compatible as written: __eq__, or equal lower-case names (and versions, when checked). */
  lemma CompatibleUsesEq(self: Format, other: Format, checkVersion: bool)
    ensures IsCompatible(self, other, checkVersion) <==>
      (Eq(self, other)
       || ((!checkVersion || Text.Lower(self.version) == Text.Lower(other.version))
           && Text.Lower(self.name) == Text.Lower(other.name)))
  {
    EqIsEquality(self, other);
  }

  /** Every format is compatible with itself, with or without the version check. */
  lemma CompatibleReflexive(f: Format, checkVersion: bool)
    ensures IsCompatible(f, f, checkVersion)
  {
  }

  /**
   * Compatibility is case-insensitive equality of the names, and with the
   * version check also of the versions.
   */
  lemma {:induction false} CompatibleIff(a: Format, b: Format, checkVersion: bool)
    ensures IsCompatible(a, b, checkVersion) <==>
      (Text.Lower(a.name) == Text.Lower(b.name)
       && (checkVersion ==> Text.Lower(a.version) == Text.Lower(b.version)))
  {
  }

  lemma CompatibleSymmetric(a: Format, b: Format, checkVersion: bool)
    ensures IsCompatible(a, b, checkVersion) <==> IsCompatible(b, a, checkVersion)
  {
    CompatibleIff(a, b, checkVersion);
    CompatibleIff(b, a, checkVersion);
  }

  /** The formats registered under name, or [] for an unknown name. */
  function Bucket(formats: map<string, seq<Format>>, name: string): seq<Format> {
    if name in formats then formats[name] else []
  }

  /** The first format of fs whose version is exactly version, as a list of at most one. */
  function FirstWithVersion(fs: seq<Format>, version: string): seq<Format> {
    if fs == [] then []
    else if fs[0].version == version then [fs[0]]
    else FirstWithVersion(fs[1..], version)
  }

  /**
   * FirstWithVersion is empty exactly when no format has the version, and
   * otherwise holds the earliest format that has it.
   */
  lemma {:induction false} FirstWithVersionSpec(fs: seq<Format>, version: string)
    ensures |FirstWithVersion(fs, version)| <= 1
    ensures FirstWithVersion(fs, version) == [] <==> forall i :: 0 <= i < |fs| ==> fs[i].version != version
    ensures FirstWithVersion(fs, version) != [] ==>
      exists i :: 0 <= i < |fs| && fs[i] == FirstWithVersion(fs, version)[0] && fs[i].version == version
        && (forall j :: 0 <= j < i ==> fs[j].version != version)
  {
    if fs != [] && fs[0].version != version {
      var tail := fs[1..];
      FirstWithVersionSpec(tail, version);
      var r := FirstWithVersion(tail, version);
      if r != [] {
        var i :| 0 <= i < |tail| && tail[i] == r[0] && tail[i].version == version
          && (forall j :: 0 <= j < i ==> tail[j].version != version);
        assert fs[i + 1] == r[0];
        forall j | 0 <= j < i + 1 ensures fs[j].version != version {
          if j > 0 { assert fs[j] == tail[j - 1]; }
        }
      } else {
        forall i | 0 <= i < |fs| ensures fs[i].version != version {
          if i > 0 { assert fs[i] == tail[i - 1]; }
        }
      }
    } else if fs != [] {
      assert fs[0].version == version;
    }
  }

  /** What get_metadata_formats(name, version) returns for a registry state. */
  function LookupFormats(formats: map<string, seq<Format>>, name: string, version: string): seq<Format> {
    if version == "" then Bucket(formats, name) else FirstWithVersion(Bucket(formats, name), version)
  }

  /** The singleton registry of metadata formats. */
  class MetadataFormats {
    var formats: map<string, seq<Format>>

    constructor()
      ensures formats == map[]
    {
      formats := map[];
    }

    /**
     * Register f under its name: with replace the list becomes [f],
     * otherwise f goes in front of the formats already registered.
     */
    method AddMetadataFormat(f: Format, replace: bool := false)
      modifies this
      ensures formats == old(formats)[f.name := if replace then [f] else [f] + Bucket(old(formats), f.name)]
      ensures LookupFormats(formats, f.name, "")[0] == f
      ensures replace ==> LookupFormats(formats, f.name, "") == [f]
      ensures !replace ==> LookupFormats(formats, f.name, "")[1..] == LookupFormats(old(formats), f.name, "")
      ensures forall n :: n != f.name ==> Bucket(formats, n) == Bucket(old(formats), n)
      ensures Dicts.TotalLength(formats) ==
        if replace then Dicts.TotalLength(old(formats)) - |Bucket(old(formats), f.name)| + 1
        else Dicts.TotalLength(old(formats)) + 1
    {
      var key := f.name;
      if key !in formats {
        formats := formats[key := []];
      }
      if replace {
        formats := formats[key := [f]];
      } else {
        formats := formats[key := [f] + formats[key]];
      }
      Dicts.TotalLengthUpdate(old(formats), key, formats[key]);
    }

    /**
     * get_metadata_formats(name, version): the whole list when the version
     * is empty, otherwise the first exact version match.
     */
    method GetMetadataFormats(name: string, version: string := "") returns (r: seq<Format>)
      ensures r == LookupFormats(formats, name, version)
    {
      var matching := if name in formats then formats[name] else [];
      if version == "" {
        return matching;
      }
      var i := 0;
      while i < |matching|
        invariant 0 <= i <= |matching|
        invariant FirstWithVersion(matching, version) == FirstWithVersion(matching[i..], version)
      {
        if matching[i].version == version {
          return [matching[i]];
        }
        assert matching[i..][1..] == matching[i + 1..];
        i := i + 1;
      }
      return [];
    }

    /** get_num_formats: the number of formats over all names. */
    method GetNumFormats() returns (num: nat)
      ensures num == Dicts.TotalLength(formats)
    {
      num := 0;
      var keys := formats.Keys;
      Dicts.RestrictAll(formats);
      while keys != {}
        invariant keys <= formats.Keys
        invariant num + Dicts.TotalLength(Dicts.RestrictKeys(formats, keys)) == Dicts.TotalLength(formats)
        decreases |keys|
      {
        var key :| key in keys;
        var fs := formats[key];
        Dicts.RestrictRemove(formats, keys, key);
        var j := 0;
        while j < |fs|
          invariant 0 <= j <= |fs|
          invariant num + (|fs| - j) + Dicts.TotalLength(Dicts.RestrictKeys(formats, keys - {key}))
            == Dicts.TotalLength(formats)
        {
          num := num + 1;
          j := j + 1;
        }
        keys := keys - {key};
      }
      Dicts.RestrictEmpty(formats);
    }
  }
}

/**
 * The plug-in's example format and the content its example converter
 * produces from a CKAN package dict.
 */
module CustomConverter {
  import opened Wrappers
  import opened Json
  import opened MetadataFormat
  import opened Libraries

  /** CustomMetadataFormat(custom_parameter) */
  function CustomMetadataFormat(customParameter: string): (f: Format)
    ensures f.name == "custom" && f.version == "1.0" && f.formatType == TEXT
    ensures f.fileExtension == "txt" && f.cls == CustomFormat(customParameter)
    ensures f.description == "my custom format for testing purposes"
  {
    NewFormat("custom", "1.0", TEXT, description := "my custom format for testing purposes")
      .(cls := CustomFormat(customParameter))
  }

  const Prefix: string := "Custom converted metadata for package "

  /**
   * The content CustomConverter.convert builds: the prefix followed by the
   * package name, '' when the dict has none; AttributeError when the value
   * is not a dict.
   */
  function CustomContent(libs: Libs, datasetDict: Json): (r: Result<string>)
    ensures r.Ok? <==> datasetDict.JObj?
    ensures r.Err? ==> r.error == AttributeError
    ensures r.Ok? ==> |r.value| >= |Prefix| && r.value[..|Prefix|] == Prefix
    ensures datasetDict.JObj? && !HasKey(datasetDict, "name") ==> r == Ok(Prefix)
    ensures HasKey(datasetDict, "name") && Lookup(datasetDict, "name").value.JStr? ==>
      r == Ok(Prefix + Lookup(datasetDict, "name").value.s)
  {
    match GetOr(datasetDict, "name", JStr(""))
    case Err(e) => Err(e)
    case Ok(name) =>
      assert name == JStr("") ==> Prefix + PyStr(name, libs.repr) == Prefix + "" == Prefix;
      Ok(Prefix + PyStr(name, libs.repr))
  }
}

/**
 * _valueToDataciteCV: the DataCite controlled vocabularies the scheming
 * converters map free-text values onto, matched after lower-casing and
 * dropping spaces and underscores.  The 4.3 and 3.1 converters carry the
 * same four tables, each a dict from a normal form to its controlled value.
 */
module DataciteCv {
  import opened Wrappers
  import opened Json
  import Text
  import Seqs

  const TitleTypes: map<string, string> := map[
    "alternativetitle" := "AlternativeTitle", "subtitle" := "Subtitle",
    "translatedtitle" := "TranslatedTitle", "other" := "Other"
  ]

  const ResourceTypesGeneral: map<string, string> := map[
    "audiovisual" := "Audiovisual", "collection" := "Collection", "dataset" := "Dataset",
    "event" := "Event", "image" := "Image", "interactiveresource" := "InteractiveResource",
    "model" := "Model", "physicalobject" := "PhysicalObject", "service" := "Service",
    "software" := "Software", "sound" := "Sound", "text" := "Text", "workflow" := "Workflow",
    "other" := "Other"
  ]

  const DescriptionTypes: map<string, string> := map[
    "abstract" := "Abstract", "methods" := "Methods", "seriesinformation" := "SeriesInformation",
    "tableofcontents" := "TableOfContents", "other" := "Other"
  ]

  const ContributorTypes: map<string, string> := map[
    "contactperson" := "ContactPerson", "datacollector" := "DataCollector",
    "datacurator" := "DataCurator", "datamanager" := "DataManager", "distributor" := "Distributor",
    "editor" := "Editor", "funder" := "Funder", "hostinginstitution" := "HostingInstitution",
    "other" := "Other", "producer" := "Producer", "projectleader" := "ProjectLeader",
    "projectmanager" := "ProjectManager", "projectmember" := "ProjectMember",
    "registrationagency" := "RegistrationAgency",
    "registrationauthority" := "RegistrationAuthority", "relatedperson" := "RelatedPerson",
    "researchgroup" := "ResearchGroup", "rightsholder" := "RightsHolder",
    "researcher" := "Researcher", "sponsor" := "Sponsor", "supervisor" := "Supervisor",
    "workpackageleader" := "WorkPackageLeader"
  ]

  /** datacite_cv.get(datacite_tag, {}) */
  function Vocabulary(dataciteTag: string): map<string, string> {
    if dataciteTag == "titleType" then TitleTypes
    else if dataciteTag == "resourceTypeGeneral" then ResourceTypesGeneral
    else if dataciteTag == "descriptionType" then DescriptionTypes
    else if dataciteTag == "contributorType" then ContributorTypes
    else map[]
  }

  /** value.lower().replace(' ', '').replace('_', '') */
  function Normalise(value: string): string {
    Text.Remove(Text.Remove(Text.Lower(value), ' '), '_')
  }

  /**
   * _valueToDataciteCV(value, datacite_tag, default): the controlled value
   * the normalised value names in the tag's vocabulary, else the default.
   * `value.lower()` raises AttributeError for None or any other non-string.
   */
  function ValueToDataciteCv(value: Json, dataciteTag: string, default: string := ""): (r: Result<string>)
    ensures r.Err? <==> !value.JStr?
    ensures r.Err? ==> r.error == AttributeError
    ensures r.Ok? ==> r.value == default || r.value in Vocabulary(dataciteTag).Values
    ensures value.JStr? && Normalise(value.s) in Vocabulary(dataciteTag) ==>
      r == Ok(Vocabulary(dataciteTag)[Normalise(value.s)])
    ensures value.JStr? && Normalise(value.s) !in Vocabulary(dataciteTag) ==> r == Ok(default)
  {
    if !value.JStr? then Err(AttributeError)
    else
      var key := Normalise(value.s);
      Ok(if key in Vocabulary(dataciteTag) then Vocabulary(dataciteTag)[key] else default)
  }

  /**
   * A resource-type entry without a resourceTypeGeneral subfield gives None
   * from `.get`, and the conversion raises AttributeError there.
   */
  lemma CvMissingGeneralRaises()
    ensures ValueToDataciteCv(JNull, "resourceTypeGeneral", "Dataset") == Err(AttributeError)
  {
  }

  /** Dropping a space or an underscore from the value does not change its normal form. */
  lemma NormaliseSkipsSeparator(a: string, b: string, c: char)
    requires c == ' ' || c == '_'
    ensures Normalise(a + [c] + b) == Normalise(a + b)
  {
    NormaliseAppend(a + [c], b);
    NormaliseAppend(a, [c]);
    NormaliseSeparator(c);
    Seqs.AppendEmpty(Normalise(a));
    NormaliseAppend(a, b);
  }

  /** The normal form of a concatenation is the concatenation of the normal forms. */
  lemma NormaliseAppend(a: string, b: string)
    ensures Normalise(a + b) == Normalise(a) + Normalise(b)
  {
    var la, lb := Text.Lower(a), Text.Lower(b);
    Text.LowerAppend(a, b);
    Text.RemoveAppend(la, lb, ' ');
    Text.RemoveAppend(Text.Remove(la, ' '), Text.Remove(lb, ' '), '_');
  }

  /** A lone space or underscore normalises to nothing. */
  lemma NormaliseSeparator(c: char)
    requires c == ' ' || c == '_'
    ensures Normalise([c]) == []
  {
    assert Text.Lower([c]) == [c];
    assert [c][1..] == [];
  }

  /** A space or an underscore anywhere in the value does not change the match. */
  lemma CvIgnoresSeparator(a: string, b: string, c: char, dataciteTag: string, default: string)
    requires c == ' ' || c == '_'
    ensures ValueToDataciteCv(JStr(a + [c] + b), dataciteTag, default) == ValueToDataciteCv(JStr(a + b), dataciteTag, default)
  {
    NormaliseSkipsSeparator(a, b, c);
  }

  /** Letter case does not change the match. */
  lemma CvIgnoresCase(a: string, b: string, dataciteTag: string, default: string)
    requires Text.Lower(a) == Text.Lower(b)
    ensures ValueToDataciteCv(JStr(a), dataciteTag, default) == ValueToDataciteCv(JStr(b), dataciteTag, default)
  {
  }

  /** A tag without a vocabulary, or a value none of its entries names, gives the default. */
  lemma CvUnknownIsDefault(value: string, dataciteTag: string, default: string)
    requires Normalise(value) !in Vocabulary(dataciteTag)
    ensures ValueToDataciteCv(JStr(value), dataciteTag, default) == Ok(default)
  {
  }

  /** 'contact person' and 'Contact_Person' are both the contributor type 'ContactPerson'. */
  lemma LowerContactPerson()
    ensures Text.Lower("Contact_Person") == "contact_person"
  {
    Text.LowerAppend("C" + "ontact_" + "P", "erson");
    Text.LowerAppend("C" + "ontact_", "P");
    Text.LowerAppend("C", "ontact_");
    Text.LowerNoUpper("ontact_");
    Text.LowerNoUpper("erson");
    assert Text.Lower("C") == "c";
    assert Text.Lower("P") == "p";
  }

  lemma NormaliseContactPersonSpaced()
    ensures Normalise("contact person") == "contactperson"
  {
    var spaced := "contact person";
    Text.LowerNoUpper(spaced);
    RemoveSpaceContactPerson();
    Text.RemoveAbsent("contactperson", '_');
  }

  lemma RemoveSpaceContactPerson()
    ensures Text.Remove("contact person", ' ') == "contactperson"
  {
    var a, b := "contact", "person";
    assert "contact person" == a + [' '] + b;
    Text.RemoveBetween(a, b, ' ');
  }

  lemma NormaliseContactPersonSnake()
    ensures Normalise("Contact_Person") == "contactperson"
  {
    LowerContactPerson();
    NoSpaceContactPerson();
    RemoveUnderscoreContactPerson();
  }

  lemma NoSpaceContactPerson()
    ensures Text.Remove("contact_person", ' ') == "contact_person"
  {
    Text.RemoveAbsent("contact_person", ' ');
  }

  lemma RemoveUnderscoreContactPerson()
    ensures Text.Remove("contact_person", '_') == "contactperson"
  {
    var a, b := "contact", "person";
    assert "contact_person" == a + ['_'] + b;
    Text.RemoveBetween(a, b, '_');
  }

  lemma CvContactPerson()
    ensures ValueToDataciteCv(JStr("contact person"), "contributorType") == Ok("ContactPerson")
    ensures ValueToDataciteCv(JStr("Contact_Person"), "contributorType") == Ok("ContactPerson")
  {
    NormaliseContactPersonSpaced();
    NormaliseContactPersonSnake();
    ContactPersonEntry();
  }

  lemma ContactPersonEntry()
    ensures "contactperson" in Vocabulary("contributorType")
    ensures Vocabulary("contributorType")["contactperson"] == "ContactPerson"
  {
    assert Vocabulary("contributorType") == ContributorTypes;
  }
}

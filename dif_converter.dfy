/**
 * The deterministic helpers of the GCMD DIF converter: keywords from tags,
 * the science keywords guessed from the organisation, the deduplicated
 * resource formats and access levels, the DIF language name and the
 * bounding rectangle of a GeoJSON geometry.
 */
module EnvidatDif {
  import opened Wrappers
  import opened Json
  import opened Geometry
  import opened Libraries
  import Extras
  import Dicts
  import Text
  import Seqs

  // ---------------------------------------------------------------------
  // _get_keywords

  /** _get_keywords(data_dict): the upper-cased display names of the tags, in order. */
  method GetKeywords(dataDict: Json) returns (r: Result<seq<string>>)
    ensures r == Extras.KeywordNames(dataDict)
  {
    var tags := GetOr(dataDict, "tags", JList([]));
    if tags.Err? {
      return Err(tags.error);
    }
    var xs := Iterate(tags.value);
    if xs.Err? {
      return Err(xs.error);
    }
    var keywords: seq<string> := [];
    for i := 0 to |xs.value|
      invariant Extras.TagNames(xs.value[..i]) == Ok(keywords)
    {
      var name := Extras.TagName(xs.value[i]);
      Extras.TagNamesTurn(xs.value, i, keywords);
      if name.Err? {
        return Err(name.error);
      }
      keywords := keywords + [name.value];
    }
    Seqs.TakeAll(xs.value);
    return Ok(keywords);
  }

  // ---------------------------------------------------------------------
  // _get_science_keywords

  const DefaultScienceKeywords: (string, string, string) := ("EARTH SCIENCE", "LAND SURFACE", "ENVIRONMENT")

  /** The GCMD science keywords guessed for each EnviDat organisation, in the order of the source table. */
  const OrganizationKeywords: seq<(string, (string, string, string))> :=
    OrganizationsPart1 + OrganizationsPart2 + OrganizationsPart3 + OrganizationsPart4

  const OrganizationsPart1: seq<(string, (string, string, string))> := [
    ("biodiversity-and-conservation-biology", ("EARTH SCIENCE", "BIOSPHERE", "BIODIVERSITY")),
    ("cces", ("EARTH SCIENCE", "CLIMATE INDICATORS", "ENVIRONMENT")),
    ("clench", ("EARTH SCIENCE", "CLIMATE INDICATORS", "ENVIRONMENT")),
    ("community-ecology", ("EARTH SCIENCE", "BIOSPHERE", "ECOLOGY")),
    ("conservation-biology", ("EARTH SCIENCE", "BIOSPHERE", "BIOLOGY")),
    ("cryos", ("EARTH SCIENCE", "CRYOSPHERE", "SNOW")),
    ("d-baug", ("EARTH SCIENCE", "SPECTRAL/ENGINEERING", "ENVIRONMENT")),
    ("usys", ("EARTH SCIENCE", "CLIMATE INDICATORS", "ENVIRONMENT"))
  ]

  const OrganizationsPart2: seq<(string, (string, string, string))> := [
    ("dynamic-macroecology", ("EARTH SCIENCE", "BIOSPHERE", "MACROECOLOGY")),
    ("ecosystems-dynamics", ("EARTH SCIENCE", "BIOSPHERE", "ECOSYSTEMS")),
    ("epfl", ("EARTH SCIENCE", "CLIMATE INDICATORS", "ENVIRONMENT")),
    ("ethz", ("EARTH SCIENCE", "CLIMATE INDICATORS", "ENVIRONMENT")),
    ("feh", ("EARTH SCIENCE", "AGRICULTURE", "ENVIRONMENT")),
    ("forema", ("EARTH SCIENCE", "BIOSPHERE", "FOREST")),
    ("forest-dynamics", ("EARTH SCIENCE", "BIOSPHERE", "FOREST")),
    ("forest-soils-and-biogeochemistry", ("EARTH SCIENCE", "SOLID EARTH", "BIOGEOCHEMISTRY"))
  ]

  const OrganizationsPart3: seq<(string, (string, string, string))> := [
    ("gebirgshydrologie", ("EARTH SCIENCE", "LAND SURFACE", "HYDROLOGY")),
    ("gis", ("EARTH SCIENCE", "LAND SURFACE", "GIS")),
    ("hazri", ("EARTH SCIENCE", "SOLID EARTH", "NATURAL HAZARDS")),
    ("ibp", ("EARTH SCIENCE", "CLIMATE INDICATORS", "ENVIRONMENT")),
    ("landscape-dynamics", ("EARTH SCIENCE", "LAND SURFACE", "LANDSCAPE")),
    ("lwf", ("EARTH SCIENCE", "CLIMATE INDICATORS", "ENVIRONMENT")),
    ("mountain-ecosystems", ("EARTH SCIENCE", "BIOSPHERE", "MOUNTAIN ECOSYSTEMS")),
    ("nfi", ("EARTH SCIENCE", "BIOSPHERE", "FOREST"))
  ]

  const OrganizationsPart4: seq<(string, (string, string, string))> := [
    ("plant-animal-interactions", ("EARTH SCIENCE", "BIOSPHERE", "INTERACTIONS")),
    ("remote-sensing", ("EARTH SCIENCE", "CLIMATE INDICATORS", "ENVIRONMENT")),
    ("resource-analysis", ("EARTH SCIENCE", "BIOSPHERE", "FOREST RESOURCES")),
    ("slf", ("EARTH SCIENCE", "CRYOSPHERE", "SNOW")),
    ("stand-dynamics-and-silviculture", ("EARTH SCIENCE", "BIOSPHERE", "SILVICULTURE")),
    ("swissforestlab-swissfl", ("EARTH SCIENCE", "BIOSPHERE", "FOREST")),
    ("vaw", ("EARTH SCIENCE", "TERRESTRIAL HYDROSPHERE", "GLACIOLOGY")),
    ("wsl", ("EARTH SCIENCE", "LAND SURFACE", "LANDSCAPE"))
  ]

  function Triple(t: (string, string, string)): (r: seq<string>)
    ensures |r| == 3 && r[0] == t.0 && r[1] == t.1 && r[2] == t.2
  {
    [t.0, t.1, t.2]
  }

  /** The keywords the table gives an organisation name, the default for a name it does not list. */
  function OrganizationTriple(name: string): (string, string, string) {
    match Dicts.Get(OrganizationKeywords, name)
    case Some(t) => t
    case None => DefaultScienceKeywords
  }

  /**
   * _get_science_keywords(data_dict, extras_dict): the science_keywords
   * extra (found ignoring case and blanks, '' when absent) upper-cased and
   * split at commas when that gives three parts, else the keywords of the
   * organisation's name, else the default three.  A non-string extra or
   * organisation raises AttributeError, an unhashable name TypeError.
   */
  function ScienceKeywords(dataDict: Json, extras: Extras.PyDict): (r: Result<seq<string>>)
    ensures r.Ok? ==> |r.value| == 3
  {
    var custom :- Extras.IgnoreCase(extras, "science_keywords", true, JStr(""));
    if !custom.JStr? then Err(AttributeError)
    else
      var parts := Text.Split(Text.Upper(custom.s), ',');
      if |parts| == 3 then Ok(parts)
      else
        var organization :- GetOr(dataDict, "organization", JObj([]));
        var name :- GetOr(organization, "name", JStr(""));
        if name.JList? || name.JObj? then Err(TypeError)
        else Ok(Triple(if name.JStr? then OrganizationTriple(name.s) else DefaultScienceKeywords))
  }

  /** Every part of s.split(sep) is made of characters of s. */
  lemma {:induction false} SplitChars(s: string, sep: char, i: nat, c: char)
    requires i < |Text.Split(s, sep)| && c in Text.Split(s, sep)[i]
    ensures c in s
  {
    if s != [] {
      var rest := Text.Split(s[1..], sep);
      if s[0] == sep {
        if i > 0 {
          SplitChars(s[1..], sep, i - 1, c);
        }
      } else if i == 0 {
        if c != s[0] {
          SplitChars(s[1..], sep, 0, c);
        }
      } else {
        SplitChars(s[1..], sep, i, c);
      }
    }
  }

  /** A custom extra with three comma-separated parts is used as it is, upper-cased. */
  lemma ScienceKeywordsCustom(dataDict: Json, extras: Extras.PyDict, v: string)
    requires Extras.IgnoreCase(extras, "science_keywords", true, JStr("")) == Ok(JStr(v))
    requires |Text.Split(Text.Upper(v), ',')| == 3
    ensures ScienceKeywords(dataDict, extras) == Ok(Text.Split(Text.Upper(v), ','))
    ensures forall i, c :: 0 <= i < 3 && c in ScienceKeywords(dataDict, extras).value[i] ==> !Text.IsLowerAscii(c)
  {
    var parts := Text.Split(Text.Upper(v), ',');
    forall i, c | 0 <= i < 3 && c in parts[i] ensures !Text.IsLowerAscii(c) {
      SplitChars(Text.Upper(v), ',', i, c);
    }
  }

  /** Otherwise the organisation decides: its entry in the table, the default for any other name. */
  lemma ScienceKeywordsGuessed(dataDict: Json, extras: Extras.PyDict, v: string, name: string)
    requires Extras.IgnoreCase(extras, "science_keywords", true, JStr("")) == Ok(JStr(v))
    requires |Text.Split(Text.Upper(v), ',')| != 3
    requires dataDict.JObj? && HasKey(dataDict, "organization")
    requires var o := Lookup(dataDict, "organization").value; o.JObj? && Lookup(o, "name") == Some(JStr(name))
    ensures ScienceKeywords(dataDict, extras) == Ok(Triple(OrganizationTriple(name)))
    ensures ScienceKeywords(dataDict, extras).value[0] == "EARTH SCIENCE"
  {
    EarthScienceFirst(name);
  }

  /** Every guessed list starts with EARTH SCIENCE. */
  lemma EarthScienceFirst(name: string)
    ensures OrganizationTriple(name).0 == "EARTH SCIENCE"
  {
    EarthScienceInTable();
    EveryEntryEarthScience(OrganizationKeywords, name);
  }

  predicate AllEarthScience(table: seq<(string, (string, string, string))>) {
    forall i :: 0 <= i < |table| ==> table[i].1.0 == "EARTH SCIENCE"
  }

  lemma EarthScienceInTable()
    ensures AllEarthScience(OrganizationKeywords)
  {
    EarthSciencePart1();
    EarthSciencePart2();
    EarthSciencePart3();
    EarthSciencePart4();
    var t := OrganizationKeywords;
    assert t == OrganizationsPart1 + OrganizationsPart2 + OrganizationsPart3 + OrganizationsPart4;
    forall i | 0 <= i < |t| ensures t[i].1.0 == "EARTH SCIENCE" {
      if i < 8 {
        assert t[i] == OrganizationsPart1[i];
      } else if i < 16 {
        assert t[i] == OrganizationsPart2[i - 8];
      } else if i < 24 {
        assert t[i] == OrganizationsPart3[i - 16];
      } else {
        assert t[i] == OrganizationsPart4[i - 24];
      }
    }
  }

  lemma EarthSciencePart1() ensures AllEarthScience(OrganizationsPart1) { }
  lemma EarthSciencePart2() ensures AllEarthScience(OrganizationsPart2) { }
  lemma EarthSciencePart3() ensures AllEarthScience(OrganizationsPart3) { }
  lemma EarthSciencePart4() ensures AllEarthScience(OrganizationsPart4) { }

  lemma {:induction false} EveryEntryEarthScience(table: seq<(string, (string, string, string))>, name: string)
    requires AllEarthScience(table)
    ensures Dicts.Get(table, name).Some? ==> Dicts.Get(table, name).value.0 == "EARTH SCIENCE"
  {
    if table != [] && table[0].0 != name {
      EveryEntryEarthScience(table[1..], name);
    }
  }

  // ---------------------------------------------------------------------
  // _get_resource_formats and _get_resource_restrictions

  /** The entries of xs without repetitions, each at its first occurrence. */
  function Dedup(xs: seq<string>): (r: seq<string>)
    ensures forall x :: x in r <==> x in xs
    ensures forall i, j :: 0 <= i < j < |r| ==> r[i] != r[j]
  {
    if xs == [] then []
    else
      var prev := Dedup(xs[..|xs| - 1]);
      var last := xs[|xs| - 1];
      assert forall x :: x in xs <==> x in xs[..|xs| - 1] || x == last by {
        assert xs == xs[..|xs| - 1] + [last];
      }
      if last in prev then prev else prev + [last]
  }

  /** Deduplicating a prefix gives a prefix: entries keep the order of their first occurrence. */
  lemma {:induction false} DedupPrefix(xs: seq<string>, k: nat)
    requires k <= |xs|
    ensures Dedup(xs[..k]) <= Dedup(xs)
    decreases |xs|
  {
    if k < |xs| {
      var init := xs[..|xs| - 1];
      assert xs[..k] == init[..k];
      DedupPrefix(init, k);
    } else {
      assert xs[..k] == xs;
    }
  }

  /**
   * The truthy values pick finds in the resources, lower-cased, in order;
   * the first error pick raises, or AttributeError at a truthy value that
   * is not a string.
   */
  function Picked(resources: seq<Json>, pick: Json -> Result<Json>): (r: Result<seq<string>>)
    ensures r.Ok? ==> forall x :: x in r.value ==> x != [] && Text.Lower(x) == x
  {
    if resources == [] then Ok([])
    else
      var prev :- Picked(resources[..|resources| - 1], pick);
      var v :- pick(resources[|resources| - 1]);
      if !Truthy(v) then Ok(prev)
      else if !v.JStr? then Err(AttributeError)
      else
        Text.LowerIdempotent(v.s);
        Ok(prev + [Text.Lower(v.s)])
  }

  /** Every truthy string value picked from a resource shows up, lower-cased. */
  lemma {:induction false} PickedHas(resources: seq<Json>, pick: Json -> Result<Json>, i: nat, s: string)
    requires Picked(resources, pick).Ok? && i < |resources|
    requires pick(resources[i]) == Ok(JStr(s)) && s != []
    ensures Text.Lower(s) in Picked(resources, pick).value
  {
    var n := |resources| - 1;
    if i < n {
      assert resources[..n][i] == resources[i];
      PickedHas(resources[..n], pick, i, s);
    }
  }

  /** Everything in the result was picked from some resource. */
  lemma {:induction false} PickedFrom(resources: seq<Json>, pick: Json -> Result<Json>, x: string)
    returns (i: nat, s: string)
    requires Picked(resources, pick).Ok? && x in Picked(resources, pick).value
    ensures i < |resources| && pick(resources[i]) == Ok(JStr(s)) && Text.Lower(s) == x
  {
    var n := |resources| - 1;
    var prev := Picked(resources[..n], pick).value;
    if x in prev {
      i, s := PickedFrom(resources[..n], pick, x);
      assert resources[..n][i] == resources[i];
    } else {
      i, s := n, pick(resources[n]).value.s;
    }
  }

  /** The picked values, deduplicated: the result of either collecting loop. */
  function Collected(resources: seq<Json>, pick: Json -> Result<Json>): (r: Result<seq<string>>)
    ensures r.Ok? ==> forall i, j :: 0 <= i < j < |r.value| ==> r.value[i] != r.value[j]
    ensures r.Ok? ==> forall x :: x in r.value ==> x != [] && Text.Lower(x) == x
  {
    var xs :- Picked(resources, pick);
    Ok(Dedup(xs))
  }

  /**
   * The loop shared by _get_resource_formats and
   * _get_resource_restrictions: for each resource of
   * dataset_dict.get('resources', []), the picked value, when truthy, is
   * lower-cased and appended unless already present.
   */
  method CollectFromResources(dataDict: Json, pick: Json -> Result<Json>) returns (r: Result<seq<string>>)
    ensures r == (var rs :- GetOr(dataDict, "resources", JList([])); var xs :- Iterate(rs); Collected(xs, pick))
  {
    var rs := GetOr(dataDict, "resources", JList([]));
    if rs.Err? {
      return Err(rs.error);
    }
    var xs := Iterate(rs.value);
    if xs.Err? {
      return Err(xs.error);
    }
    var resources := xs.value;
    var values: seq<string> := [];
    for i := 0 to |resources|
      invariant Picked(resources[..i], pick).Ok?
      invariant values == Dedup(Picked(resources[..i], pick).value)
    {
      assert resources[..i + 1][..i] == resources[..i];
      var v := pick(resources[i]);
      if v.Err? {
        PickedStops(resources, pick, i + 1);
        return Err(v.error);
      }
      if Truthy(v.value) {
        if !v.value.JStr? {
          PickedStops(resources, pick, i + 1);
          return Err(AttributeError);
        }
        var lowered := Text.Lower(v.value.s);
        if lowered !in values {
          values := values + [lowered];
        }
      }
    }
    assert resources[..|resources|] == resources;
    return Ok(values);
  }

  /** A failure on a prefix is the failure of the whole. */
  lemma {:induction false} PickedStops(resources: seq<Json>, pick: Json -> Result<Json>, k: nat)
    requires k <= |resources| && Picked(resources[..k], pick).Err?
    ensures Picked(resources, pick) == Picked(resources[..k], pick)
    decreases |resources|
  {
    if k < |resources| {
      var init := resources[..|resources| - 1];
      assert resources[..k] == init[..k];
      PickedStops(init, pick, k);
    } else {
      assert resources[..k] == resources;
    }
  }

  /** resource.get('format', resource.get('mimetype', resource.get('mimetype_inner', ''))), inner default first. */
  function FormatOf(resource: Json): (r: Result<Json>)
    ensures r.Err? <==> !resource.JObj?
  {
    if !resource.JObj? then Err(AttributeError)
    else
      var inner := GetOr(resource, "mimetype_inner", JStr("")).value;
      var mimetype := GetOr(resource, "mimetype", inner).value;
      GetOr(resource, "format", mimetype)
  }

  /** The format key wins whenever present, even with an empty value; then mimetype, then mimetype_inner. */
  lemma FormatPrecedence(resource: Json)
    requires resource.JObj?
    ensures HasKey(resource, "format") ==> FormatOf(resource) == Ok(Lookup(resource, "format").value)
    ensures !HasKey(resource, "format") && HasKey(resource, "mimetype") ==> FormatOf(resource) == Ok(Lookup(resource, "mimetype").value)
    ensures !HasKey(resource, "format") && !HasKey(resource, "mimetype") && HasKey(resource, "mimetype_inner") ==>
      FormatOf(resource) == Ok(Lookup(resource, "mimetype_inner").value)
    ensures !HasKey(resource, "format") && !HasKey(resource, "mimetype") && !HasKey(resource, "mimetype_inner") ==>
      FormatOf(resource) == Ok(JStr(""))
  {
  }

  /** _get_resource_formats(dataset_dict) */
  method GetResourceFormats(dataDict: Json) returns (r: Result<seq<string>>)
    ensures r == (var rs :- GetOr(dataDict, "resources", JList([])); var xs :- Iterate(rs); Collected(xs, FormatOf))
  {
    r := CollectFromResources(dataDict, FormatOf);
  }

  /**
   * json.loads(resource.get('restricted')) inside the try: any failure
   * (a resource that is not a dict, a missing or non-string value, text
   * that does not parse) gives {}.
   */
  function Restricted(libs: Libs, resource: Json): Json {
    if !resource.JObj? then JObj([])
    else match Lookup(resource, "restricted")
      case Some(JStr(s)) => (match libs.loads(s) case Some(v) => v case None => JObj([]))
      case _ => JObj([])
  }

  /** restricted.get('level', '') as written: outside the try, so a parsed non-dict raises AttributeError. */
  function LevelAsWritten(libs: Libs, resource: Json): Result<Json> {
    GetOr(Restricted(libs, resource), "level", JStr(""))
  }

  /** The level as intended: a value that is not a JSON object contributes nothing, like one that does not parse. */
  function Level(libs: Libs, resource: Json): (r: Result<Json>)
    ensures r.Ok?
  {
    var restricted := Restricted(libs, resource);
    if restricted.JObj? then GetOr(restricted, "level", JStr("")) else Ok(JStr(""))
  }

  /** Every truthy format a resource gives shows up once, lower-cased. */
  lemma FormatsListed(resources: seq<Json>, i: nat, s: string)
    requires Collected(resources, FormatOf).Ok? && i < |resources|
    requires FormatOf(resources[i]) == Ok(JStr(s)) && s != []
    ensures Text.Lower(s) in Collected(resources, FormatOf).value
  {
    PickedHas(resources, FormatOf, i, s);
  }

  /** _get_resource_restrictions(dataset_dict), with the intended level lookup. */
  method GetResourceRestrictions(libs: Libs, dataDict: Json) returns (r: Result<seq<string>>)
    ensures r == (var rs :- GetOr(dataDict, "resources", JList([])); var xs :- Iterate(rs); Collected(xs, resource => Level(libs, resource)))
  {
    r := CollectFromResources(dataDict, resource => Level(libs, resource));
  }

  /** A resource whose restricted text parses to a number stops the loop as written and contributes nothing as intended. */
  lemma RestrictedNonObject(libs: Libs, s: string, n: int)
    requires libs.loads(s) == Some(JInt(n))
    ensures var resource := JObj([("restricted", JStr(s))]);
      Collected([resource], resource => LevelAsWritten(libs, resource)) == Err(AttributeError) &&
      Collected([resource], resource => Level(libs, resource)) == Ok([])
  {
    var resource := JObj([("restricted", JStr(s))]);
    assert Lookup(resource, "restricted") == Some(JStr(s));
    assert [resource][..0] == [];
    var asWritten: Json -> Result<Json> := resource => LevelAsWritten(libs, resource);
    var intended: Json -> Result<Json> := resource => Level(libs, resource);
    assert asWritten(resource) == Err(AttributeError);
    assert intended(resource) == Ok(JStr(""));
    assert Picked([resource], asWritten) == Err(AttributeError);
    assert Picked([resource], intended) == Ok([]);
  }

  /** Levels are found case-insensitively: 'Public' and 'public' are one entry. */
  lemma LevelsFolded(libs: Libs, resources: seq<Json>, i: nat, s: string)
    requires Collected(resources, resource => Level(libs, resource)).Ok? && i < |resources|
    requires Level(libs, resources[i]) == Ok(JStr(s)) && s != []
    ensures Text.Lower(s) in Collected(resources, resource => Level(libs, resource)).value
  {
    PickedHas(resources, resource => Level(libs, resource), i, s);
  }

  // ---------------------------------------------------------------------
  // _get_dif_language_code

  const DifLanguages: seq<(string, string)> := [("en", "English"), ("de", "German"), ("it", "Italian"), ("fr", "French")]

  /** code.lower()[:2] */
  function LanguagePrefix(code: string): (r: string)
    ensures |r| == if |code| < 2 then |code| else 2
  {
    var lc := Text.Lower(code);
    lc[..if |lc| < 2 then |lc| else 2]
  }

  /**
   * _get_dif_language_code(code): the language of the first two
   * characters, lower-cased, English for any other; AttributeError when
   * code is not a string.  Every table entry is one capitalized word, so
   * title() changes nothing.
   */
  function DifLanguageCode(code: Json): (r: Result<string>)
    ensures r.Err? <==> !code.JStr?
  {
    if !code.JStr? then Err(AttributeError)
    else
      var name := match Dicts.Get(DifLanguages, LanguagePrefix(code.s)) case Some(n) => n case None => "English";
      Ok(Text.Capitalize(name))
  }

  /** Only the first two characters count, and their case does not. */
  lemma DifLanguageFirstTwo(s: string)
    ensures DifLanguageCode(JStr(s)) == DifLanguageCode(JStr(s[..if |s| < 2 then |s| else 2]))
    ensures DifLanguageCode(JStr(s)) == DifLanguageCode(JStr(Text.Lower(s)))
  {
    var k := if |s| < 2 then |s| else 2;
    assert LanguagePrefix(s) == LanguagePrefix(s[..k]);
    Text.LowerIdempotent(s);
    assert LanguagePrefix(s) == LanguagePrefix(Text.Lower(s));
  }

  /** en, de, it and fr give English, German, Italian and French; any other prefix English. */
  lemma DifLanguageCodes(s: string)
    ensures LanguagePrefix(s) == "en" ==> DifLanguageCode(JStr(s)) == Ok("English")
    ensures LanguagePrefix(s) == "de" ==> DifLanguageCode(JStr(s)) == Ok("German")
    ensures LanguagePrefix(s) == "it" ==> DifLanguageCode(JStr(s)) == Ok("Italian")
    ensures LanguagePrefix(s) == "fr" ==> DifLanguageCode(JStr(s)) == Ok("French")
    ensures LanguagePrefix(s) !in Dicts.Keys(DifLanguages) ==> DifLanguageCode(JStr(s)) == Ok("English")
  {
    var p := LanguagePrefix(s);
    if p == "en" {
      DifLanguageEntry(s, 0);
    } else if p == "de" {
      DifLanguageEntry(s, 1);
    } else if p == "it" {
      DifLanguageEntry(s, 2);
    } else if p == "fr" {
      DifLanguageEntry(s, 3);
    } else if p !in Dicts.Keys(DifLanguages) {
      CapitalizedName("English");
    }
  }

  /** A prefix found at entry i of the table gives that entry's name. */
  lemma DifLanguageEntry(s: string, i: nat)
    requires i < |DifLanguages| && LanguagePrefix(s) == DifLanguages[i].0
    ensures DifLanguageCode(JStr(s)) == Ok(DifLanguages[i].1)
  {
    DifLanguageLookup(i);
    DifLanguageNameCapitalized(i);
  }

  lemma DifLanguageLookup(i: nat)
    requires i < |DifLanguages|
    ensures Dicts.Get(DifLanguages, DifLanguages[i].0) == Some(DifLanguages[i].1)
  {
    var d := DifLanguages;
    assert d[0].0 == "en" && d[1].0 == "de" && d[2].0 == "it" && d[3].0 == "fr";
  }

  /** Every name of the table is one capitalized word. */
  lemma DifLanguageNameCapitalized(i: nat)
    requires i < |DifLanguages|
    ensures Text.Capitalize(DifLanguages[i].1) == DifLanguages[i].1
  {
    if i == 0 {
      CapitalizedName("English");
    } else if i == 1 {
      CapitalizedName("German");
    } else if i == 2 {
      CapitalizedName("Italian");
    } else {
      CapitalizedName("French");
    }
  }

  lemma CapitalizedName(w: string)
    requires w != [] && Text.IsUpperAscii(w[0]) && forall c :: c in w[1..] ==> !Text.IsUpperAscii(c)
    ensures Text.Capitalize(w) == w
  {
    Text.LowerNoUpper(w[1..]);
  }

  // ---------------------------------------------------------------------
  // _get_bounding_rectangle

  /**
   * The while loop of _get_bounding_rectangle: flatten one level while
   * the first entry is a list.  IndexError on an empty list, TypeError
   * when a flattened entry is a number.
   */
  function FlattenUntilNumber(flat: seq<Geo>): (r: Result<seq<Geo>>)
    ensures r.Ok? ==> |r.value| > 0 && r.value[0].Num?
    decreases SizeOf(flat)
  {
    if |flat| == 0 then Err(IndexError)
    else if flat[0].Num? then Ok(flat)
    else
      var next :- Flattened(flat);
      FlattenUntilNumber(next)
  }

  /** xs[::2] */
  function Evens(xs: seq<Geo>): (r: seq<Geo>)
    ensures |r| == (|xs| + 1) / 2
    ensures forall i :: 0 <= i < |r| ==> r[i] == xs[2 * i]
  {
    if |xs| <= 1 then xs else [xs[0]] + Evens(xs[2..])
  }

  /** The numbers of a list, TypeError when one entry is a list (min and max would compare it with a number). */
  function Numbers(xs: seq<Geo>): (r: Result<seq<real>>)
    ensures r.Ok? <==> forall i :: 0 <= i < |xs| ==> xs[i].Num?
    ensures r.Ok? ==> |r.value| == |xs| && forall i :: 0 <= i < |xs| ==> xs[i] == Num(r.value[i])
  {
    if xs == [] then Ok([])
    else if xs[0].Arr? then Err(TypeError)
    else
      var rest :- Numbers(xs[1..]);
      Ok([xs[0].x] + rest)
  }

  /** min(xs) */
  function MinOf(xs: seq<real>): (r: real)
    requires xs != []
    ensures r in xs && forall x :: x in xs ==> r <= x
  {
    if |xs| == 1 then xs[0]
    else
      var m := MinOf(xs[1..]);
      assert forall x :: x in xs ==> x == xs[0] || x in xs[1..];
      if xs[0] <= m then xs[0] else m
  }

  /** max(xs) */
  function MaxOf(xs: seq<real>): (r: real)
    requires xs != []
    ensures r in xs && forall x :: x in xs ==> x <= r
  {
    if |xs| == 1 then xs[0]
    else
      var m := MaxOf(xs[1..]);
      assert forall x :: x in xs ==> x == xs[0] || x in xs[1..];
      if xs[0] >= m then xs[0] else m
  }

  /**
   * _get_bounding_rectangle(coordinates): [min lon, max lon, min lat,
   * max lat] over the alternating entries of the flattened coordinates,
   * each bound one of the coordinates and every coordinate within them.
   */
  function BoundingRectangle(coordinates: seq<Geo>): (r: Result<seq<real>>)
    ensures r.Ok? ==> |r.value| == 4 && r.value[0] <= r.value[1] && r.value[2] <= r.value[3]
  {
    var flat :- FlattenUntilNumber(coordinates);
    var lons :- Numbers(Evens(flat));
    var lats :- Numbers(Evens(flat[1..]));
    if lats == [] then Err(ValueError)
    else Ok([MinOf(lons), MaxOf(lons), MinOf(lats), MaxOf(lats)])
  }

  /** Every longitude (even entry) and latitude (odd entry) of the flattened coordinates lies within the rectangle. */
  lemma BoundingRectangleContains(coordinates: seq<Geo>, i: nat)
    requires BoundingRectangle(coordinates).Ok?
    requires i < |FlattenUntilNumber(coordinates).value|
    ensures var flat, r := FlattenUntilNumber(coordinates).value, BoundingRectangle(coordinates).value;
      flat[i].Num? &&
      (i % 2 == 0 ==> r[0] <= flat[i].x <= r[1]) &&
      (i % 2 == 1 ==> r[2] <= flat[i].x <= r[3])
  {
    var flat := FlattenUntilNumber(coordinates).value;
    var lons := Numbers(Evens(flat)).value;
    var lats := Numbers(Evens(flat[1..])).value;
    assert BoundingRectangle(coordinates).value == [MinOf(lons), MaxOf(lons), MinOf(lats), MaxOf(lats)];
    RectangleContains(flat, lons, lats, i);
  }

  /** The point at index i lies within the min and max of its alternating series. */
  lemma RectangleContains(flat: seq<Geo>, lons: seq<real>, lats: seq<real>, i: nat)
    requires i < |flat| && Numbers(Evens(flat)) == Ok(lons) && Numbers(Evens(flat[1..])) == Ok(lats) && lats != []
    ensures lons != [] && flat[i].Num?
    ensures i % 2 == 0 ==> MinOf(lons) <= flat[i].x <= MaxOf(lons)
    ensures i % 2 == 1 ==> MinOf(lats) <= flat[i].x <= MaxOf(lats)
  {
    var k := i / 2;
    Halve(i);
    if i % 2 == 0 {
      EvenEntry(flat, lons, k);
    } else {
      OddEntry(flat, lats, k);
      EvenEntry(flat, lons, 0);
    }
  }

  lemma Halve(i: nat)
    ensures i % 2 == 0 ==> i == 2 * (i / 2)
    ensures i % 2 == 1 ==> i == 2 * (i / 2) + 1
  {
  }

  lemma EvenEntry(flat: seq<Geo>, lons: seq<real>, k: nat)
    requires 2 * k < |flat| && Numbers(Evens(flat)) == Ok(lons)
    ensures k < |lons| && flat[2 * k] == Num(lons[k]) && lons[k] in lons
    ensures MinOf(lons) <= lons[k] <= MaxOf(lons)
  {
    assert flat[2 * k] == Evens(flat)[k];
  }

  lemma OddEntry(flat: seq<Geo>, lats: seq<real>, k: nat)
    requires 2 * k + 1 < |flat| && Numbers(Evens(flat[1..])) == Ok(lats)
    ensures k < |lats| && flat[2 * k + 1] == Num(lats[k]) && lats[k] in lats
    ensures MinOf(lats) <= lats[k] <= MaxOf(lats)
  {
    assert flat[2 * k + 1] == flat[1..][2 * k] == Evens(flat[1..])[k];
  }

  /** Each bound of the rectangle is one of the flattened coordinates. */
  lemma BoundingRectangleAttained(coordinates: seq<Geo>)
    requires BoundingRectangle(coordinates).Ok?
    ensures var flat, r := FlattenUntilNumber(coordinates).value, BoundingRectangle(coordinates).value;
      Num(r[0]) in flat && Num(r[1]) in flat && Num(r[2]) in flat && Num(r[3]) in flat
  {
    var flat := FlattenUntilNumber(coordinates).value;
    var lons := Numbers(Evens(flat)).value;
    var lats := Numbers(Evens(flat[1..])).value;
    NumbersIn(Evens(flat), lons, MinOf(lons));
    NumbersIn(Evens(flat), lons, MaxOf(lons));
    NumbersIn(Evens(flat[1..]), lats, MinOf(lats));
    NumbersIn(Evens(flat[1..]), lats, MaxOf(lats));
    EvensIn(flat);
    EvensIn(flat[1..]);
  }

  lemma NumbersIn(xs: seq<Geo>, ns: seq<real>, x: real)
    requires Numbers(xs) == Ok(ns) && x in ns
    ensures Num(x) in xs
  {
    var k :| 0 <= k < |ns| && ns[k] == x;
    assert xs[k] == Num(x);
  }

  lemma EvensIn(xs: seq<Geo>)
    ensures forall g :: g in Evens(xs) ==> g in xs
  {
    forall g | g in Evens(xs) ensures g in xs {
      var k :| 0 <= k < |Evens(xs)| && Evens(xs)[k] == g;
      assert xs[2 * k] == g;
    }
  }

  /** _get_bounding_rectangle, with its while loop. */
  method GetBoundingRectangle(coordinates: seq<Geo>) returns (r: Result<seq<real>>)
    ensures r == BoundingRectangle(coordinates)
  {
    var flat := coordinates;
    while |flat| > 0 && flat[0].Arr?
      invariant FlattenUntilNumber(flat) == FlattenUntilNumber(coordinates)
      decreases SizeOf(flat)
    {
      var next := Flattened(flat);
      if next.Err? {
        return Err(next.error);
      }
      flat := next.value;
    }
    if |flat| == 0 {
      return Err(IndexError);
    }
    var lons := Numbers(Evens(flat));
    if lons.Err? {
      return Err(lons.error);
    }
    var lats := Numbers(Evens(flat[1..]));
    if lats.Err? {
      return Err(lats.error);
    }
    if lats.value == [] {
      return Err(ValueError);
    }
    return Ok([MinOf(lons.value), MaxOf(lons.value), MinOf(lats.value), MaxOf(lats.value)]);
  }

  /** A single point is its own rectangle; a lone number has no latitude. */
  lemma BoundingRectanglePoint(x: real, y: real)
    ensures BoundingRectangle([Num(x), Num(y)]) == Ok([x, x, y, y])
    ensures BoundingRectangle([Num(x)]) == Err(ValueError)
  {
    assert Evens([Num(x), Num(y)]) == [Num(x)];
    assert Evens([Num(x), Num(y)][1..]) == [Num(y)];
  }

  /** An empty geometry raises IndexError. */
  lemma BoundingRectangleEmpty()
    ensures BoundingRectangle([]) == Err(IndexError)
  {
  }
}

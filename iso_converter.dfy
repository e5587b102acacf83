/**
 * The deterministic helpers of the ISO 19139 converter: camel-case codes,
 * the ISO 639-2 language lookup, CharacterString elements that may be
 * flagged missing, the bounding-box test on a polygon ring, keywords from
 * tags and the online-resource element.
 */
module EnvidatIso {
  import opened Wrappers
  import opened Json
  import opened Geometry
  import Extras
  import Dicts
  import Text
  import Seqs

  // ---------------------------------------------------------------------
  // _cap_code

  /** text.split(' ', 1) on a text holding a space: the first word lower-cased, the later words capwords-ed and glued. */
  function CamelWords(t: string): string
    requires ' ' in t
  {
    var k := Text.Find(t, ' ');
    Text.Lower(t[..k]) + Text.Join(Text.Split(Text.CapWords(t[k + 1..]), ' '), "")
  }

  /** The body of _cap_code once the text is stripped and known to be truthy. */
  function CamelStripped(t: string): Result<string> {
    if Text.Find(t, ' ') >= 0 && |t| >= 3 then Ok(CamelWords(t))
    else if t == [] then Err(IndexError)
    else Ok([Text.LowerChar(t[0])] + t[1..])
  }

  /**
   * _cap_code(text) as written: a falsy text is returned as it is, a
   * non-string raises AttributeError at strip(), and a text of blanks is
   * stripped to '' and then indexed.
   */
  function CapCodeAsWritten(text: Json): Result<Json> {
    if !Truthy(text) then Ok(text)
    else if !text.JStr? then Err(AttributeError)
    else
      var t :- CamelStripped(Text.Strip(text.s));
      Ok(JStr(t))
  }

  /** _cap_code as intended: a text of blanks gives the stripped text ''. */
  function CapCode(text: Json): (r: Result<Json>)
    ensures !Truthy(text) ==> r == Ok(text)
    ensures r.Err? <==> Truthy(text) && !text.JStr?
    ensures r.Err? ==> r.error == AttributeError
    ensures text.JStr? ==> r.Ok? && r.value.JStr?
  {
    if text.JStr? && Text.Strip(text.s) == [] && Truthy(text) then Ok(JStr(""))
    else CapCodeAsWritten(text)
  }

  /** A text with no blank at either end that holds a space has a word on either side of its first space. */
  lemma SpaceInside(t: string)
    requires Text.Unpadded(t)
    requires ' ' in t
    ensures 0 < Text.Find(t, ' ') < |t| - 1 && |t| >= 3
  {
    var k := Text.Find(t, ' ');
    assert k >= 0 && t[k] == ' ';
    assert k != 0 by {
      assert !Text.IsSpace(t[0]);
    }
    assert k != |t| - 1 by {
      assert !Text.IsSpace(t[|t| - 1]);
    }
  }

  /** The converted form of a stripped, non-empty text holds no space. */
  lemma CamelNoSpace(t: string)
    requires Text.Unpadded(t)
    ensures CamelStripped(t).Ok? && ' ' !in CamelStripped(t).value
  {
    if ' ' in t {
      SpaceInside(t);
      var k := Text.Find(t, ' ');
      Text.LowerKeepsChar(t[..k], ' ');
      Text.JoinAvoids(Text.Split(Text.CapWords(t[k + 1..]), ' '), "", ' ');
    } else {
      assert t == [t[0]] + t[1..];
    }
  }

  /** A text that strips to something: _cap_code is the converted form of the stripped text. */
  lemma CapCodeOfStripped(s: string)
    requires Text.Strip(s) != []
    ensures CamelStripped(Text.Strip(s)).Ok?
    ensures CapCode(JStr(s)) == Ok(JStr(CamelStripped(Text.Strip(s)).value))
  {
    assert s != [];
    assert Truthy(JStr(s));
  }

  /** A text of blanks only (or no text at all): _cap_code as intended gives ''. */
  lemma CapCodeOfBlank(s: string)
    requires Text.Strip(s) == []
    ensures CapCode(JStr(s)) == Ok(JStr(""))
  {
  }

  /** The result of _cap_code on any string holds no space. */
  lemma CapCodeNoSpace(s: string)
    ensures CapCode(JStr(s)).Ok? && ' ' !in CapCode(JStr(s)).value.s
  {
    var t := Text.Strip(s);
    if t == [] {
      CapCodeOfBlank(s);
    } else {
      Text.StripEnds(s);
      CapCodeOfStripped(s);
      CamelNoSpace(t);
    }
  }

  /** The converted form of a stripped text with several words. */
  lemma CamelMultiWord(t: string)
    requires Text.Unpadded(t)
    requires ' ' in t
    ensures var k := Text.Find(t, ' ');
      CamelStripped(t) == Ok(Text.Lower(t[..k]) + Text.Join(Text.CapitalizedWords(t[k + 1..]), ""))
  {
    SpaceInside(t);
    Text.CapWordsGlued(t[Text.Find(t, ' ') + 1..]);
  }

  /** Several words: the first is lower-cased, each later word capitalized, and they are glued with no space. */
  lemma CapCodeMultiWord(s: string)
    requires ' ' in Text.Strip(s)
    ensures var t := Text.Strip(s); var k := Text.Find(t, ' ');
      CapCode(JStr(s)) == Ok(JStr(Text.Lower(t[..k]) + Text.Join(Text.CapitalizedWords(t[k + 1..]), "")))
  {
    StrippedMultiWord(s);
    CapCodeOfStripped(s);
  }

  lemma StrippedMultiWord(s: string)
    requires ' ' in Text.Strip(s)
    ensures var t := Text.Strip(s); var k := Text.Find(t, ' ');
      CamelStripped(t) == Ok(Text.Lower(t[..k]) + Text.Join(Text.CapitalizedWords(t[k + 1..]), ""))
  {
    Text.StripEnds(s);
    CamelMultiWord(Text.Strip(s));
  }

  /** The converted form of a stripped single word. */
  lemma CamelOneWord(t: string)
    requires t != [] && ' ' !in t
    ensures CamelStripped(t).Ok?
    ensures var r := CamelStripped(t).value; |r| == |t| && r[0] == Text.LowerChar(t[0]) && r[1..] == t[1..]
  {
    assert CamelStripped(t) == Ok([Text.LowerChar(t[0])] + t[1..]);
  }

  /** One word: only its first character is lower-cased. */
  lemma CapCodeOneWord(s: string)
    requires var t := Text.Strip(s); t != [] && ' ' !in t
    ensures var t := Text.Strip(s); var r := CapCode(JStr(s)).value.s;
      |r| == |t| && r[0] == Text.LowerChar(t[0]) && r[1..] == t[1..]
  {
    CapCodeOfStripped(s);
    CamelOneWord(Text.Strip(s));
  }

  /** Two words: the first lower-cased, the second capitalized, glued together. */
  lemma CapCodeTwoWords(a: string, b: string)
    requires a != [] && b != []
    requires forall c :: c in a ==> !Text.IsSpace(c)
    requires forall c :: c in b ==> !Text.IsSpace(c)
    ensures CapCode(JStr(a + " " + b)) == Ok(JStr(Text.Lower(a) + Text.Capitalize(b)))
  {
    var t := a + " " + b;
    assert t[0] == a[0] && t[|t| - 1] == b[|b| - 1];
    Text.StripUnpadded(t);
    assert t[..|a|] == a && t[|a| + 1..] == b;
    Text.FindIndex(t, ' ', |a|);
    Text.CapitalizedOneWord(b);
    CapCodeMultiWord(t);
  }

  lemma OnGoingSpelled()
    ensures "on" + " " + "going" == "on going"
  {
  }

  lemma OnGoingParts()
    ensures CapCode(JStr("on" + " " + "going")) == Ok(JStr(Text.Lower("on") + Text.Capitalize("going")))
  {
    CapCodeTwoWords("on", "going");
  }

  lemma OnGoingGlued()
    ensures Text.Lower("on") + Text.Capitalize("going") == "onGoing"
  {
    var a, b := "on", "going";
    Text.LowerNoUpper(a);
    assert b[0] == 'g' && b[1..] == "oing";
    Text.LowerNoUpper(b[1..]);
    assert Text.Capitalize(b) == "Going";
  }

  /** _cap_code of 'on going' is 'onGoing'. */
  lemma CapCodeOnGoing()
    ensures CapCode(JStr("on going")) == Ok(JStr("onGoing"))
  {
    OnGoingSpelled();
    OnGoingParts();
    OnGoingGlued();
  }

  /** The blank text the code indexes after stripping: the code raises IndexError, the intended version gives ''. */
  lemma CapCodeBlank()
    ensures CapCodeAsWritten(JStr(" ")) == Err(IndexError)
    ensures CapCode(JStr(" ")) == Ok(JStr(""))
  {
    BlankStrips();
    assert Truthy(JStr(" "));
    CapCodeOfBlank(" ");
  }

  lemma BlankStrips()
    ensures Text.Strip(" ") == []
  {
    assert Text.IsSpace(" "[0]);
  }

  // ---------------------------------------------------------------------
  // _get_iso_language_code

  /** The two-letter codes the converter knows, with their ISO 639-2 codes. */
  const IsoLanguages: seq<(string, string)> :=
    [("en", "eng"), ("de", "ger"), ("it", "ita"), ("fr", "fre"), ("ro", "roh")]

  /** Whether a value can be a dict key: lists and dicts are unhashable. */
  predicate Hashable(v: Json) {
    !(v.JList? || v.JObj?)
  }

  /**
   * lookup_dict.get(code, 'eng').title(); every table entry is one
   * lower-case word, so title() is capitalize().  A list or dict code is
   * unhashable, and the lookup raises TypeError.
   */
  function IsoLanguageCode(code: Json): (r: Result<string>)
    ensures r.Err? <==> !Hashable(code)
    ensures r.Err? ==> r.error == TypeError
    ensures r.Ok? ==> |r.value| == 3
  {
    if !Hashable(code) then Err(TypeError)
    else
      var iso := if code.JStr? && Dicts.Get(IsoLanguages, code.s).Some? then Dicts.Get(IsoLanguages, code.s).value else "eng";
      assert |iso| == 3 by {
        if code.JStr? && Dicts.Get(IsoLanguages, code.s).Some? {
          TableCodesHaveThreeLetters(code.s);
        }
      }
      Ok(Text.Capitalize(iso))
  }

  lemma TableCodesHaveThreeLetters(code: string)
    requires Dicts.Get(IsoLanguages, code).Some?
    ensures |Dicts.Get(IsoLanguages, code).value| == 3
  {
  }

  /**
   * The five known codes map to Eng, Ger, Ita, Fre and Roh; any other
   * hashable value, a missing code included, to Eng; a list or a dict
   * raises TypeError.
   */
  lemma IsoLanguageCodes(code: Json)
    ensures code == JStr("en") ==> IsoLanguageCode(code) == Ok("Eng")
    ensures code == JStr("de") ==> IsoLanguageCode(code) == Ok("Ger")
    ensures code == JStr("it") ==> IsoLanguageCode(code) == Ok("Ita")
    ensures code == JStr("fr") ==> IsoLanguageCode(code) == Ok("Fre")
    ensures code == JStr("ro") ==> IsoLanguageCode(code) == Ok("Roh")
    ensures Hashable(code) && !(code.JStr? && code.s in Dicts.Keys(IsoLanguages)) ==> IsoLanguageCode(code) == Ok("Eng")
    ensures !Hashable(code) ==> IsoLanguageCode(code) == Err(TypeError)
  {
    if code == JStr("en") {
      IsoEnglish();
    } else if code == JStr("de") {
      IsoGerman();
    } else if code == JStr("it") {
      IsoItalian();
    } else if code == JStr("fr") {
      IsoFrench();
    } else if code == JStr("ro") {
      IsoRomansh();
    } else {
      IsoDefault(code);
    }
  }

  lemma IsoEnglish()
    ensures IsoLanguageCode(JStr("en")) == Ok("Eng")
  {
    IsoLookup(0);
    IsoCapitalized("eng", "Eng");
  }

  lemma IsoGerman()
    ensures IsoLanguageCode(JStr("de")) == Ok("Ger")
  {
    IsoLookup(1);
    IsoCapitalized("ger", "Ger");
  }

  lemma IsoItalian()
    ensures IsoLanguageCode(JStr("it")) == Ok("Ita")
  {
    IsoLookup(2);
    IsoCapitalized("ita", "Ita");
  }

  lemma IsoFrench()
    ensures IsoLanguageCode(JStr("fr")) == Ok("Fre")
  {
    IsoLookup(3);
    IsoCapitalized("fre", "Fre");
  }

  lemma IsoRomansh()
    ensures IsoLanguageCode(JStr("ro")) == Ok("Roh")
  {
    IsoLookup(4);
    IsoCapitalized("roh", "Roh");
  }

  lemma IsoLookup(i: nat)
    requires i < |IsoLanguages|
    ensures Dicts.Get(IsoLanguages, IsoLanguages[i].0) == Some(IsoLanguages[i].1)
  {
    var d := IsoLanguages;
    assert d[0].0 == "en" && d[1].0 == "de" && d[2].0 == "it" && d[3].0 == "fr" && d[4].0 == "ro";
  }

  /** A lower-case three-letter code capitalized. */
  lemma IsoCapitalized(iso: string, r: string)
    requires |iso| == 3 == |r| && r[1..] == iso[1..] && r[0] == Text.UpperChar(iso[0])
    requires !Text.IsUpperAscii(iso[1]) && !Text.IsUpperAscii(iso[2])
    ensures Text.Capitalize(iso) == r
  {
    Text.LowerNoUpper(iso[1..]);
  }

  lemma IsoDefault(code: Json)
    ensures Hashable(code) && !(code.JStr? && code.s in Dicts.Keys(IsoLanguages)) ==> IsoLanguageCode(code) == Ok("Eng")
  {
    IsoCapitalized("eng", "Eng");
  }

  // ---------------------------------------------------------------------
  // _get_or_missing

  /** {'gco:CharacterString': v} */
  function CharacterString(v: Json): Json {
    JObj([("gco:CharacterString", v)])
  }

  /** An element carrying a truthy CharacterString and nothing else. */
  predicate Filled(e: Json) {
    e.JObj? && |e.fields| == 1 && e.fields[0].0 == "gco:CharacterString" && Truthy(e.fields[0].1)
  }

  /** {'gco:CharacterString': '', '@gco:nilReason': 'missing'} */
  const Missing: Json := JObj([("gco:CharacterString", JStr("")), ("@gco:nilReason", JStr("missing"))])

  /**
   * _get_or_missing(data_dict, tag, ignore_case): the value under tag
   * wrapped as a CharacterString when it is truthy, else the element
   * flagged missing; AttributeError when data_dict is not a dict.  The
   * case-insensitive lookup is the intended _get_ignore_case.
   */
  function GetOrMissing(d: Json, tag: string, ignoreCase: bool): (r: Result<Json>)
    ensures r.Err? <==> !d.JObj?
    ensures r.Ok? ==> r.value == Missing || Filled(r.value)
  {
    if !d.JObj? then Err(AttributeError)
    else
      var pd := Extras.AsPyDict(d.fields);
      Extras.IgnoreCaseStringKeys(pd, tag, true, JNull);
      var v := if ignoreCase then Extras.IgnoreCase(pd, tag, true, JNull).value else GetOr(d, tag, JNull).value;
      if Truthy(v) then Ok(CharacterString(v)) else Ok(Missing)
  }

  /** Without ignore_case: the value under the exact tag, when present and truthy, else missing. */
  lemma GetOrMissingExact(d: Json, tag: string)
    requires d.JObj?
    ensures HasKey(d, tag) && Truthy(Lookup(d, tag).value) ==> GetOrMissing(d, tag, false) == Ok(CharacterString(Lookup(d, tag).value))
    ensures !(HasKey(d, tag) && Truthy(Lookup(d, tag).value)) ==> GetOrMissing(d, tag, false) == Ok(Missing)
  {
  }

  /** With ignore_case: the value under the first key that folds like the tag decides. */
  lemma GetOrMissingFolded(d: Json, tag: string, i: nat)
    requires d.JObj? && i < |d.fields|
    requires Extras.Fold(d.fields[i].0, true) == Extras.Fold(tag, true)
    requires forall j :: 0 <= j < i ==> Extras.Fold(d.fields[j].0, true) != Extras.Fold(tag, true)
    ensures Truthy(d.fields[i].1) ==> GetOrMissing(d, tag, true) == Ok(CharacterString(d.fields[i].1))
    ensures !Truthy(d.fields[i].1) ==> GetOrMissing(d, tag, true) == Ok(Missing)
  {
    Extras.IgnoreCaseFindsFirst(Extras.AsPyDict(d.fields), tag, true, JNull, i);
  }

  /** With ignore_case and no key folding like the tag, the element is flagged missing. */
  lemma GetOrMissingNoFold(d: Json, tag: string)
    requires d.JObj?
    requires forall j :: 0 <= j < |d.fields| ==> Extras.Fold(d.fields[j].0, true) != Extras.Fold(tag, true)
    ensures GetOrMissing(d, tag, true) == Ok(Missing)
  {
    Extras.IgnoreCaseMissing(Extras.AsPyDict(d.fields), tag, true, JNull);
  }

  // ---------------------------------------------------------------------
  // is_a_box

  /**
   * is_a_box(coordinates), in Python's evaluation order: five points, the
   * first repeated last, the second [x0, y2] and the fourth [x2, y0] for
   * the first point (x0, y0) and the third (x2, y2), with x0 != x2 and
   * y0 != y2.  Indexing a point that is a number or too short raises.
   */
  function IsABox(c: seq<Geo>): Result<bool> {
    if |c| != 5 || c[0] != c[4] then Ok(false)
    else
      var x0 :- At(c[0], 0);
      var y2 :- At(c[2], 1);
      if c[1] != Arr([x0, y2]) then Ok(false)
      else
        var x2 :- At(c[2], 0);
        var y0 :- At(c[0], 1);
        Ok(c[3] == Arr([x2, y0]) && x0 != x2 && y0 != y2)
  }

  /** The point (x, y). */
  function P(x: real, y: real): Geo {
    Arr([Num(x), Num(y)])
  }

  /** A true answer means a closed ring of an axis-aligned rectangle with non-zero width and height. */
  lemma IsABoxSound(c: seq<Geo>)
    requires IsABox(c) == Ok(true)
    ensures |c| == 5 && c[4] == c[0]
    ensures c[0].Arr? && |c[0].items| >= 2 && c[2].Arr? && |c[2].items| >= 2
    ensures var x0, y0, x2, y2 := c[0].items[0], c[0].items[1], c[2].items[0], c[2].items[1];
      c[1] == Arr([x0, y2]) && c[3] == Arr([x2, y0]) && x0 != x2 && y0 != y2
  {
  }

  /** Every such rectangle traversed from (x0, y0) through (x0, y2) is a box. */
  lemma IsABoxComplete(x0: real, y0: real, x2: real, y2: real)
    requires x0 != x2 && y0 != y2
    ensures IsABox([P(x0, y0), P(x0, y2), P(x2, y2), P(x2, y0), P(x0, y0)]) == Ok(true)
  {
  }

  /** The same rectangle traversed the other way round is not recognised. */
  lemma IsABoxOneOrientation(x0: real, y0: real, x2: real, y2: real)
    requires x0 != x2 && y0 != y2
    ensures IsABox([P(x0, y0), P(x2, y0), P(x2, y2), P(x0, y2), P(x0, y0)]) == Ok(false)
  {
  }

  /** A ring of zero width or height is not a box. */
  lemma IsABoxDegenerate(x0: real, y0: real, x2: real, y2: real)
    requires x0 == x2 || y0 == y2
    ensures IsABox([P(x0, y0), P(x0, y2), P(x2, y2), P(x2, y0), P(x0, y0)]) == Ok(false)
  {
  }

  /** Only a closed five-point ring can raise, at a point that is not a list of two or more. */
  lemma IsABoxRaises(c: seq<Geo>)
    requires IsABox(c).Err?
    ensures |c| == 5 && c[0] == c[4]
    ensures !(c[0].Arr? && |c[0].items| >= 2 && c[2].Arr? && |c[2].items| >= 2)
  {
  }

  // ---------------------------------------------------------------------
  // get_keywords

  /** The keyword elements for a list of names. */
  function Keywords(names: seq<string>): (r: seq<Json>)
    ensures |r| == |names|
    ensures forall i :: 0 <= i < |names| ==> r[i] == CharacterString(JStr(names[i]))
  {
    seq(|names|, i requires 0 <= i < |names| => CharacterString(JStr(names[i])))
  }

  lemma KeywordsSnoc(names: seq<string>, name: string)
    ensures Keywords(names + [name]) == Keywords(names) + [CharacterString(JStr(name))]
  {
    var l, r := Keywords(names + [name]), Keywords(names) + [CharacterString(JStr(name))];
    forall i | 0 <= i < |l|
      ensures l[i] == r[i]
    {
      if i < |names| {
        assert (names + [name])[i] == names[i];
      }
    }
  }

  /**
   * get_keywords(data_dict): one {'gco:CharacterString': NAME} per tag, the
   * tag's display name upper-cased, in the order of the tags.
   */
  method GetKeywords(dataDict: Json) returns (r: Result<seq<Json>>)
    ensures r.Ok? <==> Extras.KeywordNames(dataDict).Ok?
    ensures r.Ok? ==> r.value == Keywords(Extras.KeywordNames(dataDict).value)
    ensures r.Err? ==> r.error == Extras.KeywordNames(dataDict).error
  {
    var tags := GetOr(dataDict, "tags", JList([]));
    if tags.Err? {
      return Err(tags.error);
    }
    var xs := Iterate(tags.value);
    if xs.Err? {
      return Err(xs.error);
    }
    var keywords: seq<Json> := [];
    ghost var names: seq<string> := [];
    for i := 0 to |xs.value|
      invariant Extras.TagNames(xs.value[..i]) == Ok(names)
      invariant keywords == Keywords(names)
    {
      var name := Extras.TagName(xs.value[i]);
      Extras.TagNamesTurn(xs.value, i, names);
      if name.Err? {
        return Err(name.error);
      }
      KeywordsSnoc(names, name.value);
      keywords := keywords + [CharacterString(JStr(name.value))];
      names := names + [name.value];
    }
    Seqs.TakeAll(xs.value);
    return Ok(keywords);
  }

  // ---------------------------------------------------------------------
  // get_online_resource

  const FunctionCodeList := "http://www.isotc211.org/2005/resources/Codelist/gmxCodelists.xml#CI_OnLineFunctionCode"

  /** url.split(':')[0].upper() */
  function Protocol(url: string): (r: string)
    ensures ':' !in r
  {
    Text.UpperKeepsChar(Text.Split(url, ':')[0], ':');
    Text.Upper(Text.Split(url, ':')[0])
  }

  /** The protocol is the text before the first ':' (all of it when there is none), upper-cased. */
  lemma ProtocolBeforeColon(url: string)
    ensures |Protocol(url)| <= |url|
    ensures Protocol(url) == Text.Upper(url[..|Protocol(url)|])
    ensures |Protocol(url)| < |url| ==> url[|Protocol(url)|] == ':'
    ensures ':' in url <==> |Protocol(url)| < |url|
  {
    Text.SplitFirst(url, ':');
  }

  /**
   * get_online_resource(url, name, function): the gmd:CI_OnlineResource
   * element, linking url, with the protocol and the upper-cased name, and
   * the function code both as codeListValue and as text.
   */
  function OnlineResource(url: string, name: string, role: string := "download"): (r: Json)
    ensures r.JObj? && |r.fields| == 1 && r.fields[0].0 == "gmd:CI_OnlineResource"
  {
    JObj([("gmd:CI_OnlineResource", JObj([
      ("gmd:linkage", JObj([("gmd:URL", JStr(url))])),
      ("gmd:protocol", CharacterString(JStr(Protocol(url)))),
      ("gmd:name", CharacterString(JStr(Text.Upper(name)))),
      ("gmd:function", JObj([("gmd:CI_OnLineFunctionCode", JObj([
        ("@codeList", JStr(FunctionCodeList)),
        ("@codeListValue", JStr(role)),
        ("#text", JStr(role))]))]))]))])
  }

  /** The fields of the element: the url kept, protocol and name upper-cased, the function given twice. */
  lemma OnlineResourceFields(url: string, name: string, role: string)
    ensures var e := OnlineResource(url, name, role).fields[0].1;
      e.JObj? && Dicts.Keys(e.fields) == ["gmd:linkage", "gmd:protocol", "gmd:name", "gmd:function"] &&
      Lookup(e, "gmd:linkage") == Some(JObj([("gmd:URL", JStr(url))])) &&
      Lookup(e, "gmd:protocol") == Some(CharacterString(JStr(Protocol(url)))) &&
      Lookup(e, "gmd:name") == Some(CharacterString(JStr(Text.Upper(name)))) &&
      Lookup(e, "gmd:function") == Some(JObj([("gmd:CI_OnLineFunctionCode", JObj([
        ("@codeList", JStr(FunctionCodeList)), ("@codeListValue", JStr(role)), ("#text", JStr(role))]))]))
  {
    var e := OnlineResource(url, name, role).fields[0].1;
    assert e == JObj([
      ("gmd:linkage", JObj([("gmd:URL", JStr(url))])),
      ("gmd:protocol", CharacterString(JStr(Protocol(url)))),
      ("gmd:name", CharacterString(JStr(Text.Upper(name)))),
      ("gmd:function", JObj([("gmd:CI_OnLineFunctionCode", JObj([
        ("@codeList", JStr(FunctionCodeList)), ("@codeListValue", JStr(role)), ("#text", JStr(role))]))]))]);
    ResourceFieldLookups(e.fields[0].1, e.fields[1].1, e.fields[2].1, e.fields[3].1);
  }

  /** Looking up each of the four keys of the element finds its own value. */
  lemma ResourceFieldLookups(a: Json, b: Json, c: Json, d: Json)
    ensures var e := JObj([("gmd:linkage", a), ("gmd:protocol", b), ("gmd:name", c), ("gmd:function", d)]);
      Dicts.Keys(e.fields) == ["gmd:linkage", "gmd:protocol", "gmd:name", "gmd:function"] &&
      Lookup(e, "gmd:linkage") == Some(a) && Lookup(e, "gmd:protocol") == Some(b) &&
      Lookup(e, "gmd:name") == Some(c) && Lookup(e, "gmd:function") == Some(d)
  {
    ResourceKeysDiffer();
    Dicts.FourEntries("gmd:linkage", "gmd:protocol", "gmd:name", "gmd:function", a, b, c, d);
  }

  lemma ResourceKeysDiffer()
    ensures "gmd:linkage" != "gmd:protocol" && "gmd:linkage" != "gmd:name" && "gmd:linkage" != "gmd:function"
    ensures "gmd:protocol" != "gmd:name" && "gmd:protocol" != "gmd:function" && "gmd:name" != "gmd:function"
  {
    assert "gmd:linkage"[4] == 'l' && "gmd:protocol"[4] == 'p' && "gmd:name"[4] == 'n' && "gmd:function"[4] == 'f';
  }
}

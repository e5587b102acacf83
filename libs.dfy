/**
 * The foreign libraries the converters call, taken as parameters: the
 * json module, xmltodict, the lxml XSLT processor, unicodedata's NFKD
 * normalisation and Python's rendering of floats, lists and dicts.  Nothing is
 * known about them except what the lawfulness predicates state, and
 * only the lemmas that need those predicates require them.
 */
module Libraries {
  import opened Wrappers
  import opened Json

  datatype Libs = Libs(
    /** json.dumps(d, ensure_ascii=False) */
    dumps: Json -> string,
    /** json.loads(s); None when it raises ValueError. */
    loads: string -> Option<Json>,
    /** str() of a float, list or dict value. */
    repr: Json -> string,
    /** xmltodict.parse(content); None when the content is not XML. */
    xmlParse: string -> Option<Json>,
    /** xmltodict.unparse(d, pretty=True) */
    xmlUnparse: Json -> string,
    /** The XSLT stylesheet at the given path applied to the XML content. */
    xslt: (string, string) -> string,
    /** unicodedata.normalize('NFKD', s).encode('ascii', 'ignore') */
    nfkd: string -> string)

  /** json.loads undoes json.dumps on every well-formed value. */
  ghost predicate JsonRoundTrip(libs: Libs) {
    forall d :: WellFormed(d) ==> libs.loads(libs.dumps(d)) == Some(d)
  }

  /** xmltodict.parse undoes xmltodict.unparse on every well-formed tree. */
  ghost predicate XmlRoundTrip(libs: Libs) {
    forall d :: WellFormed(d) ==> libs.xmlParse(libs.xmlUnparse(d)) == Some(d)
  }
}

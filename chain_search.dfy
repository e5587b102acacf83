/**
 * find_conversion_chain on a registry state (input-format name to its
 * converters, most recent first): the breadth-first search of Paths over
 * the graph whose start nodes are the converters accepting the input
 * format, whose successors of a converter are the converters accepting
 * its output format, and whose goal is a converter that can produce the
 * target format.  Then get_conversion, which applies the chain found.
 */
module ChainSearch {
  import opened Wrappers
  import opened MetadataFormat
  import opened Libraries
  import opened Records
  import opened Converting
  import Paths
  import Seqs

  type Registry = map<string, seq<Converter>>
  type Chain = seq<Converter>

  /** converters_dict.get(name, []) */
  function Registered(reg: Registry, name: string): seq<Converter> {
    if name in reg then reg[name] else []
  }

  /** The converters of cs that pass can_convert_format, in their order. */
  function Accepting(cs: seq<Converter>, f: Format, out: Option<Format>, cv: bool): seq<Converter>
    decreases |cs|
  {
    if cs == [] then []
    else
      var last := cs[|cs| - 1];
      Accepting(cs[..|cs| - 1], f, out, cv) + (if last.CanConvertFormat(f, out, cv) then [last] else [])
  }

  lemma {:induction false} AcceptingMember(cs: seq<Converter>, f: Format, out: Option<Format>, cv: bool, c: Converter)
    ensures c in Accepting(cs, f, out, cv) <==> c in cs && c.CanConvertFormat(f, out, cv)
    decreases |cs|
  {
    if cs != [] {
      AcceptingMember(cs[..|cs| - 1], f, out, cv, c);
      assert cs == cs[..|cs| - 1] + [cs[|cs| - 1]];
    }
  }

  /** get_converters_for_format(f, out, cv): registered under f's exact name and accepting. */
  function ConvertersFor(reg: Registry, f: Format, out: Option<Format>, cv: bool): seq<Converter> {
    Accepting(Registered(reg, f.name), f, out, cv)
  }

  /** A converter is offered for a format exactly when it is registered under its name and accepts it. */
  lemma ConvertersForMember(reg: Registry, f: Format, out: Option<Format>, cv: bool, c: Converter)
    ensures c in ConvertersFor(reg, f, out, cv) <==> c in Registered(reg, f.name) && c.CanConvertFormat(f, out, cv)
  {
    AcceptingMember(Registered(reg, f.name), f, out, cv, c);
  }

  /** The converters that accept what c produces. */
  function Next(reg: Registry, c: Converter, cv: bool): seq<Converter> {
    ConvertersFor(reg, c.output, None, cv)
  }

  function GraphOf(reg: Registry, input: Format, out: Format, cv: bool): Paths.Graph<Converter> {
    Paths.Graph(ConvertersFor(reg, input, None, cv), (c: Converter) => Next(reg, c, cv), (c: Converter) => c.CanConvertToFormat(out, cv))
  }

  /** The successors of the last converter of chains[t] in the registry's graph. */
  lemma GraphNextOf(reg: Registry, input: Format, out: Format, cv: bool, chains: seq<Chain>, t: nat)
    requires t < |chains| && chains[t] != []
    ensures Paths.NextOf(GraphOf(reg, input, out, cv), chains, t) == ConvertersFor(reg, chains[t][|chains[t]| - 1].output, None, cv)
  {
  }

  /** A turn of the innermost loop of find_conversion_chain that finds a chain reaching the target. */
  lemma GraphBuildingFound(reg: Registry, input: Format, out: Format, cv: bool, chains: seq<Chain>, t: nat, u: nat, built: seq<Chain>, c: Converter)
    requires var g := GraphOf(reg, input, out, cv);
      Paths.Building(g, chains, t, u, built) && u < |Paths.NextOf(g, chains, t)| && c == Paths.NextOf(g, chains, t)[u]
    requires c !in chains[t] && c.CanConvertToFormat(out, cv)
    ensures var g := GraphOf(reg, input, out, cv);
      Paths.FirstReaching(g, Paths.Extend(g, chains)) == Some(chains[t] + [c])
  {
    Paths.BuildingStep(GraphOf(reg, input, out, cv), chains, t, u, built);
  }

  /** A turn of the innermost loop that extends chains[t] by c. */
  lemma GraphBuildingExtends(reg: Registry, input: Format, out: Format, cv: bool, chains: seq<Chain>, t: nat, u: nat, built: seq<Chain>, c: Converter)
    requires var g := GraphOf(reg, input, out, cv);
      Paths.Building(g, chains, t, u, built) && u < |Paths.NextOf(g, chains, t)| && c == Paths.NextOf(g, chains, t)[u]
    requires c !in chains[t] && !c.CanConvertToFormat(out, cv)
    ensures Paths.Building(GraphOf(reg, input, out, cv), chains, t, u + 1, built + [chains[t] + [c]])
  {
    Paths.BuildingStep(GraphOf(reg, input, out, cv), chains, t, u, built);
  }

  /** A turn of the innermost loop that skips a converter already in chains[t]. */
  lemma GraphBuildingSkips(reg: Registry, input: Format, out: Format, cv: bool, chains: seq<Chain>, t: nat, u: nat, built: seq<Chain>, c: Converter)
    requires var g := GraphOf(reg, input, out, cv);
      Paths.Building(g, chains, t, u, built) && u < |Paths.NextOf(g, chains, t)| && c == Paths.NextOf(g, chains, t)[u]
    requires c in chains[t]
    ensures Paths.Building(GraphOf(reg, input, out, cv), chains, t, u + 1, built)
  {
    Paths.BuildingStep(GraphOf(reg, input, out, cv), chains, t, u, built);
  }

  /** find_conversion_chain(input, out, cv, limit) */
  function FindChain(reg: Registry, input: Format, out: Format, cv: bool, limit: int): Chain {
    Paths.Search(GraphOf(reg, input, out, cv), limit)
  }

  /** The first converter accepts the input format and each later one the output of the one before. */
  ghost predicate Linked(reg: Registry, input: Format, cv: bool, ch: Chain) {
    |ch| >= 1
    && ch[0] in ConvertersFor(reg, input, None, cv)
    && forall i :: 0 <= i < |ch| - 1 ==> ch[i + 1] in Next(reg, ch[i], cv)
  }

  /** A chain that converts the input format into one compatible with the target format. */
  ghost predicate Valid(reg: Registry, input: Format, out: Format, cv: bool, ch: Chain) {
    Linked(reg, input, cv, ch) && ch[|ch| - 1].CanConvertToFormat(out, cv)
  }

  lemma ValidInGraph(reg: Registry, input: Format, out: Format, cv: bool, ch: Chain)
    ensures Valid(reg, input, out, cv, ch) <==> Paths.Valid(GraphOf(reg, input, out, cv), ch)
  {
  }

  /**
   * A non-empty chain found is valid: its first converter accepts the
   * input format, each next one the previous one's output format, and the
   * last one can produce the target format; it repeats no converter and
   * has at most max(1, limit) converters.
   */
  lemma FindChainSound(reg: Registry, input: Format, out: Format, cv: bool, limit: int)
    ensures var r := FindChain(reg, input, out, cv, limit);
      r != [] ==> (Valid(reg, input, out, cv, r) && Paths.Simple(r)
                   && 1 <= |r| <= Paths.MaxLength(limit))
  {
    Paths.SearchSound(GraphOf(reg, input, out, cv), limit);
    ValidInGraph(reg, input, out, cv, FindChain(reg, input, out, cv, limit));
  }

  /** No valid chain, with or without repeats, is shorter than the one found. */
  lemma FindChainShortest(reg: Registry, input: Format, out: Format, cv: bool, limit: int, ch: Chain)
    requires Valid(reg, input, out, cv, ch)
    ensures var r := FindChain(reg, input, out, cv, limit);
      r != [] ==> |r| <= |ch|
  {
    ValidInGraph(reg, input, out, cv, ch);
    Paths.SearchMinimal(GraphOf(reg, input, out, cv), limit, ch);
  }

  /** [] is returned only when no valid chain of at most max(1, limit) converters exists. */
  lemma FindChainComplete(reg: Registry, input: Format, out: Format, cv: bool, limit: int, ch: Chain)
    requires Valid(reg, input, out, cv, ch) && |ch| <= Paths.MaxLength(limit)
    ensures FindChain(reg, input, out, cv, limit) != []
  {
    ValidInGraph(reg, input, out, cv, ch);
    Paths.SearchComplete(GraphOf(reg, input, out, cv), limit, ch);
  }

  /**
   * When the k-th converter offered for the input format is the first of
   * them that can produce the target format, it is returned alone.
   */
  lemma FindChainDirect(reg: Registry, input: Format, out: Format, cv: bool, limit: int, k: nat)
    requires k < |ConvertersFor(reg, input, None, cv)|
    requires ConvertersFor(reg, input, None, cv)[k].CanConvertToFormat(out, cv)
    requires forall j :: 0 <= j < k ==> !ConvertersFor(reg, input, None, cv)[j].CanConvertToFormat(out, cv)
    ensures FindChain(reg, input, out, cv, limit) == [ConvertersFor(reg, input, None, cv)[k]]
  {
    Paths.SearchDirect(GraphOf(reg, input, out, cv), limit, k);
  }

  // ---------------------------------------------------------------------
  // get_conversion

  /** The record after applying the converters of chain in order, or the first exception. */
  function ApplyChain(libs: Libs, chain: Chain, record: Record): Result<Record>
    decreases |chain|
  {
    if chain == [] then Ok(record)
    else
      var before := ApplyChain(libs, chain[..|chain| - 1], record);
      if before.Err? then before else chain[|chain| - 1].Convert(libs, before.value)
  }

  /** get_conversion's result for a chain: None for the empty chain, else the folded conversion. */
  function Conversion(libs: Libs, chain: Chain, record: Record): Result<Option<Record>> {
    if chain == [] then Ok(None)
    else
      var r := ApplyChain(libs, chain, record);
      if r.Err? then Err(r.error) else Ok(Some(r.value))
  }

  /** One more converter of the chain applies to the record converted so far. */
  lemma ApplyChainStep(libs: Libs, chain: Chain, record: Record, k: nat, latest: Record)
    requires k < |chain| && ApplyChain(libs, chain[..k], record) == Ok(latest)
    ensures ApplyChain(libs, chain[..k + 1], record) == chain[k].Convert(libs, latest)
  {
    Seqs.TakeSnoc(chain, k);
  }

  lemma {:induction false} ApplyChainErrPersists(libs: Libs, chain: Chain, record: Record, n: nat)
    requires n <= |chain| && ApplyChain(libs, chain[..n], record).Err?
    ensures ApplyChain(libs, chain, record) == ApplyChain(libs, chain[..n], record)
    decreases |chain|
  {
    if n < |chain| {
      assert chain[..|chain| - 1][..n] == chain[..n];
      ApplyChainErrPersists(libs, chain[..|chain| - 1], record, n);
    } else {
      assert chain[..n] == chain;
    }
  }

  /** A successful conversion along a non-empty chain ends in the last converter's output format. */
  lemma ApplyChainFormat(libs: Libs, chain: Chain, record: Record)
    requires chain != [] && ApplyChain(libs, chain, record).Ok?
    ensures ApplyChain(libs, chain, record).value.format == chain[|chain| - 1].output
  {
  }

  /**
   * Whatever get_conversion returns successfully is a record whose format
   * the requested output format is compatible with.
   */
  lemma ConversionReachesTarget(libs: Libs, reg: Registry, record: Record, out: Format, cv: bool, limit: int)
    requires Conversion(libs, FindChain(reg, record.format, out, cv, limit), record).Ok?
    requires Conversion(libs, FindChain(reg, record.format, out, cv, limit), record).value.Some?
    ensures IsCompatible(out, Conversion(libs, FindChain(reg, record.format, out, cv, limit), record).value.value.format, cv)
  {
    var chain := FindChain(reg, record.format, out, cv, limit);
    FindChainSound(reg, record.format, out, cv, limit);
    ApplyChainFormat(libs, chain, record);
  }

  // ---------------------------------------------------------------------
  // Exact-name lookup

  /**
   * The registry is keyed by the exact format name while compatibility
   * ignores case: a converter for 'DataCite' registered under that name is
   * not offered for a 'datacite' format it accepts.
   */
  lemma ExactNameLookupMissesCompatible(reg: Registry, c: Converter, f: Format)
    requires reg == map[c.input.name := [c]] && f.name != c.input.name
    requires c.CanConvertFromFormat(f)
    ensures ConvertersFor(reg, f, None, false) == []
  {
    assert Registered(reg, f.name) == [];
  }
}

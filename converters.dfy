/**
 * The converter registry: input-format name to the converters registered
 * for it, most recently added first, and the queries and the conversion
 * search over it.  The methods follow the loops of the registry's own
 * methods and are proved to compute the functions of ChainSearch.
 */
module ConverterRegistry {
  import opened Wrappers
  import opened MetadataFormat
  import opened Libraries
  import opened Records
  import opened Converting
  import opened ChainSearch
  import Dicts
  import Paths
  import Seqs

  /** Registering c in front of the converters already known for its input format name. */
  function Added(reg: Registry, c: Converter): Registry {
    reg[c.input.name := [c] + Registered(reg, c.input.name)]
  }

  lemma {:induction false} AcceptingPrepend(c: Converter, cs: seq<Converter>, f: Format, out: Option<Format>, cv: bool)
    ensures Accepting([c] + cs, f, out, cv)
      == (if c.CanConvertFormat(f, out, cv) then [c] else []) + Accepting(cs, f, out, cv)
    decreases |cs|
  {
    if cs == [] {
      assert [c] + cs == [c];
      assert [c][..0] == [];
    } else {
      var l := [c] + cs;
      assert l[..|l| - 1] == [c] + cs[..|cs| - 1];
      assert l[|l| - 1] == cs[|cs| - 1];
      AcceptingPrepend(c, cs[..|cs| - 1], f, out, cv);
    }
  }

  /**
   * add_converter: the converter just added is the first one offered for
   * every format carrying its input format's name that it accepts, the
   * ones offered before follow in their order, and no other name changes.
   */
  lemma AddedOfferedFirst(reg: Registry, c: Converter, f: Format, out: Option<Format>, cv: bool)
    requires f.name == c.input.name && c.CanConvertFormat(f, out, cv)
    ensures ConvertersFor(Added(reg, c), f, out, cv) == [c] + ConvertersFor(reg, f, out, cv)
  {
    AcceptingPrepend(c, Registered(reg, c.input.name), f, out, cv);
  }

  lemma AddedKeepsOthers(reg: Registry, c: Converter, f: Format, out: Option<Format>, cv: bool)
    requires f.name != c.input.name
    ensures ConvertersFor(Added(reg, c), f, out, cv) == ConvertersFor(reg, f, out, cv)
  {
  }

  /** A converter always accepts its own input format, so after set_converter it is the only one offered for it. */
  lemma SetOfferedAlone(reg: Registry, c: Converter, cv: bool)
    ensures ConvertersFor(reg[c.input.name := [c]], c.input, None, cv) == [c]
  {
    var reg' := reg[c.input.name := [c]];
    assert Registered(reg', c.input.name) == [c];
    CompatibleReflexive(c.input, cv);
    assert c.CanConvertFormat(c.input, None, cv);
    assert [c][..0] == [];
    assert Accepting([c], c.input, None, cv) == Accepting([], c.input, None, cv) + [c];
  }

  class Converters {
    var converters: map<string, seq<Converter>>

    constructor()
      ensures converters == map[]
    {
      converters := map[];
    }

    /** add_converter */
    method AddConverter(c: Converter)
      modifies this
      ensures converters == Added(old(converters), c)
      ensures Dicts.TotalLength(converters) == Dicts.TotalLength(old(converters)) + 1
    {
      var key := c.input.name;
      var known := if key in converters then converters[key] else [];
      Dicts.TotalLengthUpdate(converters, key, [c] + known);
      converters := converters[key := [c] + known];
    }

    /** set_converter: the converters known for the name are dropped. */
    method SetConverter(c: Converter)
      modifies this
      ensures converters == old(converters)[c.input.name := [c]]
      ensures ConvertersFor(converters, c.input, None, false) == [c]
    {
      converters := converters[c.input.name := [c]];
      SetOfferedAlone(converters, c, false);
    }

    /** get_num_converters */
    method GetNumConverters() returns (num: nat)
      ensures num == Dicts.TotalLength(converters)
    {
      num := 0;
      var keys := converters.Keys;
      Dicts.RestrictAll(converters);
      while keys != {}
        invariant keys <= converters.Keys
        invariant num + Dicts.TotalLength(Dicts.RestrictKeys(converters, keys)) == Dicts.TotalLength(converters)
        decreases |keys|
      {
        var key :| key in keys;
        var cs := converters[key];
        Dicts.RestrictRemove(converters, keys, key);
        var j := 0;
        while j < |cs|
          invariant 0 <= j <= |cs|
          invariant num + (|cs| - j) + Dicts.TotalLength(Dicts.RestrictKeys(converters, keys - {key}))
            == Dicts.TotalLength(converters)
        {
          num := num + 1;
          j := j + 1;
        }
        keys := keys - {key};
      }
      Dicts.RestrictEmpty(converters);
    }

    /** get_all_converters: every registered converter, once per registration. */
    method GetAllConverters() returns (all: seq<Converter>)
      ensures |all| == Dicts.TotalLength(converters)
      ensures forall c :: c in all <==> exists key :: key in converters && c in converters[key]
    {
      all := [];
      var keys := converters.Keys;
      Dicts.RestrictAll(converters);
      while keys != {}
        invariant keys <= converters.Keys
        invariant |all| + Dicts.TotalLength(Dicts.RestrictKeys(converters, keys)) == Dicts.TotalLength(converters)
        invariant forall c :: c in all <==> exists key :: key in converters && key !in keys && c in converters[key]
        decreases |keys|
      {
        var key :| key in keys;
        Dicts.RestrictRemove(converters, keys, key);
        all := all + converters[key];
        keys := keys - {key};
      }
      Dicts.RestrictEmpty(converters);
    }

    /** get_converters_for_format */
    method GetConvertersForFormat(inputFormat: Format, outputFormat: Option<Format> := None, checkVersion: bool := false)
      returns (matching: seq<Converter>)
      ensures matching == ConvertersFor(converters, inputFormat, outputFormat, checkVersion)
    {
      var cs := if inputFormat.name in converters then converters[inputFormat.name] else [];
      matching := [];
      for k := 0 to |cs|
        invariant matching == Accepting(cs[..k], inputFormat, outputFormat, checkVersion)
      {
        assert cs[..k + 1][..k] == cs[..k];
        if cs[k].CanConvertFormat(inputFormat, outputFormat, checkVersion) {
          matching := matching + [cs[k]];
        }
      }
      assert cs[..|cs|] == cs;
    }

    /** get_converters_for_record: the converters for the record's format. */
    method GetConvertersForRecord(record: Record, outputFormat: Option<Format> := None, checkVersion: bool := false)
      returns (matching: seq<Converter>)
      ensures matching == ConvertersFor(converters, record.format, outputFormat, checkVersion)
    {
      matching := GetConvertersForFormat(record.format, outputFormat, checkVersion);
    }

    /** The loop over the initial converters: the first one reaching the target, else all the one-converter chains. */
    method FirstRound(inputFormat: Format, outputFormat: Format, checkVersion: bool)
      returns (found: Option<Chain>, chains: seq<Chain>)
      ensures var g := GraphOf(converters, inputFormat, outputFormat, checkVersion);
        found == Paths.FirstReaching(g, Paths.Level(g, 1)) && (found.None? ==> chains == Paths.Level(g, 1))
    {
      ghost var g := GraphOf(converters, inputFormat, outputFormat, checkVersion);
      var initial := GetConvertersForFormat(inputFormat, None, checkVersion);
      chains := [];
      for j := 0 to |initial|
        invariant Paths.Starting(g, j, chains)
      {
        var c := initial[j];
        Paths.StartingStep(g, j, chains);
        if c.CanConvertToFormat(outputFormat, checkVersion) {
          return Some([c]), chains;
        }
        chains := chains + [[c]];
      }
      Paths.StartingDone(g, chains);
      found := None;
    }

    /** The innermost loop: extend chains[t] by each next converter it does not contain yet. */
    method ExtendChain(ghost g: Paths.Graph<Converter>, inputFormat: Format, outputFormat: Format, checkVersion: bool,
                       chains: seq<Chain>, t: nat, built: seq<Chain>)
      returns (found: Option<Chain>, newChains: seq<Chain>)
      requires g == GraphOf(converters, inputFormat, outputFormat, checkVersion)
      requires t < |chains| && chains[t] != []
      requires built == Paths.Extend(g, chains[..t]) && Paths.FirstReaching(g, built).None?
      ensures found.Some? ==> Paths.FirstReaching(g, Paths.Extend(g, chains)) == found
      ensures found.None? ==> newChains == Paths.Extend(g, chains[..t + 1]) && Paths.FirstReaching(g, newChains).None?
    {
      var current := chains[t];
      var last := current[|current| - 1];
      var next := GetConvertersForFormat(last.output, None, checkVersion);
      GraphNextOf(converters, inputFormat, outputFormat, checkVersion, chains, t);
      Paths.BuildingStart(g, chains, t, built);
      found, newChains := ExtendByAll(g, inputFormat, outputFormat, checkVersion, chains, t, next, built);
      if found.None? {
        Paths.BuildingDone(g, chains, t, newChains);
      }
    }

    /** The loop over the next converters of chains[t], stopping at the first extension that reaches the target. */
    method ExtendByAll(ghost g: Paths.Graph<Converter>, inputFormat: Format, outputFormat: Format, checkVersion: bool,
                       chains: seq<Chain>, t: nat, next: seq<Converter>, built: seq<Chain>)
      returns (found: Option<Chain>, newChains: seq<Chain>)
      requires g == GraphOf(converters, inputFormat, outputFormat, checkVersion)
      requires Paths.Building(g, chains, t, 0, built) && next == Paths.NextOf(g, chains, t)
      ensures found.Some? ==> Paths.FirstReaching(g, Paths.Extend(g, chains)) == found
      ensures found.None? ==> Paths.Building(g, chains, t, |next|, newChains)
    {
      newChains := built;
      for u := 0 to |next|
        invariant Paths.Building(g, chains, t, u, newChains)
      {
        var f;
        f, newChains := ExtendByNext(g, inputFormat, outputFormat, checkVersion, chains, t, next, u, newChains);
        if f.Some? {
          return f, newChains;
        }
      }
      found := None;
    }

    /** One turn of the innermost loop: chains[t] extended by its u-th next converter, unless it holds it already. */
    method ExtendByNext(ghost g: Paths.Graph<Converter>, inputFormat: Format, outputFormat: Format, checkVersion: bool,
                        chains: seq<Chain>, t: nat, next: seq<Converter>, u: nat, built: seq<Chain>)
      returns (found: Option<Chain>, newChains: seq<Chain>)
      requires g == GraphOf(converters, inputFormat, outputFormat, checkVersion)
      requires Paths.Building(g, chains, t, u, built) && next == Paths.NextOf(g, chains, t) && u < |next|
      ensures found.Some? ==> Paths.FirstReaching(g, Paths.Extend(g, chains)) == found
      ensures found.None? ==> Paths.Building(g, chains, t, u + 1, newChains)
    {
      var current := chains[t];
      var c := next[u];
      newChains := built;
      found := None;
      if c !in current {
        var extended := current + [c];
        if c.CanConvertToFormat(outputFormat, checkVersion) {
          GraphBuildingFound(converters, inputFormat, outputFormat, checkVersion, chains, t, u, built, c);
          return Some(extended), newChains;
        }
        GraphBuildingExtends(converters, inputFormat, outputFormat, checkVersion, chains, t, u, built, c);
        newChains := built + [extended];
      } else {
        GraphBuildingSkips(converters, inputFormat, outputFormat, checkVersion, chains, t, u, built, c);
      }
    }

    /** One round of the for loop over range(1, limit). */
    method NextRound(ghost g: Paths.Graph<Converter>, inputFormat: Format, outputFormat: Format, checkVersion: bool, chains: seq<Chain>, i: nat)
      returns (found: Option<Chain>, newChains: seq<Chain>)
      requires g == GraphOf(converters, inputFormat, outputFormat, checkVersion)
      requires i >= 1 && chains == Paths.Level(g, i)
      ensures found == Paths.FirstReaching(g, Paths.Level(g, i + 1))
      ensures found.None? ==> newChains == Paths.Level(g, i + 1)
    {
      newChains := [];
      for t := 0 to |chains|
        invariant newChains == Paths.Extend(g, chains[..t])
        invariant Paths.FirstReaching(g, newChains).None?
      {
        Paths.LevelNonEmpty(g, i, t);
        var f;
        f, newChains := ExtendChain(g, inputFormat, outputFormat, checkVersion, chains, t, newChains);
        if f.Some? {
          return f, newChains;
        }
      }
      Paths.RoundDone(g, i, newChains);
      found := None;
    }

    /** The for loop over range(1, limit), after a first round that found nothing. */
    method LaterRounds(ghost g: Paths.Graph<Converter>, inputFormat: Format, outputFormat: Format, checkVersion: bool,
                       chains: seq<Chain>, limit: int)
      returns (chain: Chain)
      requires g == GraphOf(converters, inputFormat, outputFormat, checkVersion)
      requires chains == Paths.Level(g, 1)
      ensures chain == Paths.Rounds(g, 1, limit - 1)
    {
      var i := 1;
      var current := chains;
      while i < limit
        invariant 1 <= i
        invariant current == Paths.Level(g, i)
        invariant Paths.Rounds(g, 1, limit - 1) == Paths.Rounds(g, i, limit - i)
        decreases limit - i
      {
        var found;
        found, current := NextRound(g, inputFormat, outputFormat, checkVersion, current, i);
        Paths.RoundsStep(g, i, limit - i);
        if found.Some? {
          return found.value;
        }
        i := i + 1;
      }
      Paths.RoundsStep(g, i, limit - i);
      return [];
    }

    /** find_conversion_chain */
    method FindConversionChain(inputFormat: Format, outputFormat: Format, checkVersion: bool := false, limit: int := 3)
      returns (chain: Chain)
      ensures chain == FindChain(converters, inputFormat, outputFormat, checkVersion, limit)
    {
      ghost var g := GraphOf(converters, inputFormat, outputFormat, checkVersion);
      var found, chains := FirstRound(inputFormat, outputFormat, checkVersion);
      if found.Some? {
        return found.value;
      }
      Paths.SearchAfterFirstRound(g, limit);
      chain := LaterRounds(g, inputFormat, outputFormat, checkVersion, chains, limit);
    }

    /**
     * get_conversion: the record converted along the chain found, None
     * when there is no chain, or the first exception a converter raises.
     */
    method GetConversion(libs: Libs, record: Record, outputFormat: Format, checkVersion: bool := false, limit: int := 3)
      returns (r: Result<Option<Record>>)
      ensures r == Conversion(libs, FindChain(converters, record.format, outputFormat, checkVersion, limit), record)
    {
      var chain := FindConversionChain(record.format, outputFormat, checkVersion, limit);
      if |chain| == 0 {
        return Ok(None);
      }
      var latest := record;
      for k := 0 to |chain|
        invariant ApplyChain(libs, chain[..k], record) == Ok(latest)
      {
        ApplyChainStep(libs, chain, record, k, latest);
        var converted := chain[k].Convert(libs, latest);
        if converted.Err? {
          ApplyChainErrPersists(libs, chain, record, k + 1);
          return Err(converted.error);
        }
        latest := converted.value;
      }
      Seqs.TakeAll(chain);
      return Ok(Some(latest));
    }
  }
}

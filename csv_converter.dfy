/**
 * The EnviDat CSV converter: one quoted column per truthy field of the
 * package dict, dict-valued fields split into KEY_SUBKEY columns and
 * lists of dicts into KEY_i_SUBKEY columns numbered from 1; a string that
 * holds JSON is unpacked the same way, and one that does not becomes a
 * plain text column.  The output is the header line, a newline and the
 * value line.
 */
module CsvConverter {
  import opened Wrappers
  import opened Json
  import opened Libraries
  import Text
  import Seqs

  /** The quote characters removed and the line breaks blanked by _format_value. */
  function Clean(s: string): (r: string)
    ensures '"' !in r && '\'' !in r && '\n' !in r && '\r' !in r
  {
    Text.ReplaceChar(Text.ReplaceChar(Text.Remove(Text.Remove(s, '"'), '\''), '\n', ' '), '\r', ' ')
  }

  /**
   * _format_value: a string is NFKD-normalised to ASCII, any other value
   * goes through str(); then the characters that would break the CSV
   * line are dropped or blanked.
   */
  function FormatValue(libs: Libs, v: Json): (r: string)
    ensures '"' !in r && '\'' !in r && '\n' !in r && '\r' !in r
  {
    Clean(if v.JStr? then libs.nfkd(v.s) else PyStr(v, libs.repr))
  }

  function Quote(s: string): string { "\"" + s + "\"" }

  /** One CSV column: the quoted header and the quoted value appended in lockstep. */
  datatype Column = Column(header: string, value: string)

  function Headers(cols: seq<Column>): (hs: seq<string>)
    ensures |hs| == |cols| && forall i :: 0 <= i < |cols| ==> hs[i] == cols[i].header
  {
    seq(|cols|, i requires 0 <= i < |cols| => cols[i].header)
  }

  function Values(cols: seq<Column>): (vs: seq<string>)
    ensures |vs| == |cols| && forall i :: 0 <= i < |cols| ==> vs[i] == cols[i].value
  {
    seq(|cols|, i requires 0 <= i < |cols| => cols[i].value)
  }

  /** The column of a truthy subfield of a dict, headed prefix_SUBKEY. */
  function SubfieldColumn(libs: Libs, prefix: string, subKey: string, subValue: Json): Column {
    Column(Quote(prefix + "_" + Text.Upper(subKey)), Quote(FormatValue(libs, subValue)))
  }

  /** The columns of the truthy entries of a dict, in the dict's order. */
  function SubfieldColumns(libs: Libs, prefix: string, fields: seq<(string, Json)>): seq<Column>
    decreases |fields|
  {
    if fields == [] then []
    else
      var last := fields[|fields| - 1];
      SubfieldColumns(libs, prefix, fields[..|fields| - 1])
      + (if Truthy(last.1) then [SubfieldColumn(libs, prefix, last.0, last.1)] else [])
  }

  /**
   * The columns of a list of dicts, element i (from 1) headed KEY_i_SUBKEY,
   * and whether every element was a dict: the columns gathered before a
   * non-dict element stopped the loop are kept.
   */
  function ListColumns(libs: Libs, key: string, items: seq<Json>): (seq<Column>, bool)
    decreases |items|
  {
    if items == [] then ([], true)
    else
      var init := ListColumns(libs, key, items[..|items| - 1]);
      var last := items[|items| - 1];
      if !init.1 || !last.JObj? then (init.0, false)
      else (init.0 + SubfieldColumns(libs, Text.Upper(key) + "_" + Text.NatToString(|items|), last.fields), true)
  }

  /** The plain text column of a value that is not JSON. */
  function TextColumn(libs: Libs, key: string, value: Json): Column {
    Column(Quote(Text.Upper(key)), Quote(FormatValue(libs, value)))
  }

  /**
   * The columns of one top-level entry.  A list with a non-dict element
   * raises AttributeError; inside the JSON branch every exception is caught
   * and the columns already gathered are followed by a text column.
   */
  function ValueColumns(libs: Libs, key: string, value: Json): Result<seq<Column>> {
    if !Truthy(value) then Ok([])
    else if value.JObj? then Ok(SubfieldColumns(libs, Text.Upper(key), value.fields))
    else if value.JList? then
      var (cols, ok) := ListColumns(libs, key, value.items);
      if ok then Ok(cols) else Err(AttributeError)
    else Ok(ScalarColumns(libs, key, value))
  }

  /**
   * The columns of a value that is neither a list nor a dict: those of the
   * dict or list its text parses to, else the one text column.
   */
  function ScalarColumns(libs: Libs, key: string, value: Json): seq<Column> {
    var text := [TextColumn(libs, key, value)];
    var parsed := if value.JStr? then libs.loads(value.s) else None;
    if parsed.None? then text
    else if parsed.value.JObj? then SubfieldColumns(libs, Text.Upper(key), parsed.value.fields)
    else
      var items := Iterate(parsed.value);
      if items.Err? then text
      else
        var (cols, ok) := ListColumns(libs, key, items.value);
        if ok then cols else cols + text
  }

  /** The columns of all entries of the package dict, or the first uncaught exception. */
  function Columns(libs: Libs, fields: seq<(string, Json)>): Result<seq<Column>>
    decreases |fields|
  {
    if fields == [] then Ok([])
    else
      var init := Columns(libs, fields[..|fields| - 1]);
      var last := ValueColumns(libs, fields[|fields| - 1].0, fields[|fields| - 1].1);
      if init.Err? then init
      else if last.Err? then last
      else Ok(init.value + last.value)
  }

  function CsvText(cols: seq<Column>): string {
    Text.Join(Headers(cols), ",") + "\n" + Text.Join(Values(cols), ",")
  }

  /** What _csv_convert_dataset returns for a package dict. */
  function CsvOf(libs: Libs, datasetDict: Json): Result<string> {
    if !datasetDict.JObj? then Err(AttributeError)
    else
      match Columns(libs, datasetDict.fields)
      case Err(e) => Err(e)
      case Ok(cols) => Ok(CsvText(cols))
  }

  lemma HeadersValuesAppend(a: seq<Column>, b: seq<Column>)
    ensures Headers(a + b) == Headers(a) + Headers(b)
    ensures Values(a + b) == Values(a) + Values(b)
  {
  }

  lemma OneColumn(c: Column)
    ensures Headers([c]) == [c.header] && Values([c]) == [c.value]
  {
  }

  /** The loop over one dict's items, appending a header and a value for every truthy entry. */
  method AppendSubfields(libs: Libs, prefix: string, fields: seq<(string, Json)>,
                         headers: seq<string>, values: seq<string>)
    returns (headers': seq<string>, values': seq<string>)
    ensures headers' == headers + Headers(SubfieldColumns(libs, prefix, fields))
    ensures values' == values + Values(SubfieldColumns(libs, prefix, fields))
  {
    headers', values' := headers, values;
    var i := 0;
    while i < |fields|
      invariant 0 <= i <= |fields|
      invariant headers' == headers + Headers(SubfieldColumns(libs, prefix, fields[..i]))
      invariant values' == values + Values(SubfieldColumns(libs, prefix, fields[..i]))
    {
      var (subKey, subValue) := fields[i];
      SubfieldsTurn(libs, prefix, fields, i, headers, values, headers', values');
      if Truthy(subValue) {
        values' := values' + [Quote(FormatValue(libs, subValue))];
        headers' := headers' + [Quote(prefix + "_" + Text.Upper(subKey))];
      }
      i := i + 1;
    }
    Seqs.TakeAll(fields);
  }

  /** A truthy entry appends its header and value to those of the entries before it; a falsy one nothing. */
  lemma SubfieldsTurn(libs: Libs, prefix: string, fields: seq<(string, Json)>, i: nat,
                      headers: seq<string>, values: seq<string>, headers': seq<string>, values': seq<string>)
    requires i < |fields|
    requires headers' == headers + Headers(SubfieldColumns(libs, prefix, fields[..i]))
    requires values' == values + Values(SubfieldColumns(libs, prefix, fields[..i]))
    ensures var (subKey, subValue) := fields[i];
      && (Truthy(subValue) ==> headers' + [Quote(prefix + "_" + Text.Upper(subKey))] == headers + Headers(SubfieldColumns(libs, prefix, fields[..i + 1])))
      && (Truthy(subValue) ==> values' + [Quote(FormatValue(libs, subValue))] == values + Values(SubfieldColumns(libs, prefix, fields[..i + 1])))
      && (!Truthy(subValue) ==> headers' == headers + Headers(SubfieldColumns(libs, prefix, fields[..i + 1])))
      && (!Truthy(subValue) ==> values' == values + Values(SubfieldColumns(libs, prefix, fields[..i + 1])))
  {
    Seqs.TakeSnoc(fields, i);
    var (subKey, subValue) := fields[i];
    var before := SubfieldColumns(libs, prefix, fields[..i]);
    var head := if Truthy(subValue) then [SubfieldColumn(libs, prefix, subKey, subValue)] else [];
    HeadersValuesAppend(before, head);
    Seqs.AppendAssoc(headers, Headers(before), Headers(head));
    Seqs.AppendAssoc(values, Values(before), Values(head));
  }

  /**
   * The loop over a list of dicts with the index counter; ok is false when
   * an element without items() stopped it.
   */
  method AppendList(libs: Libs, key: string, items: seq<Json>, headers: seq<string>, values: seq<string>)
    returns (headers': seq<string>, values': seq<string>, ok: bool)
    ensures ok == ListColumns(libs, key, items).1
    ensures headers' == headers + Headers(ListColumns(libs, key, items).0)
    ensures values' == values + Values(ListColumns(libs, key, items).0)
  {
    headers', values' := headers, values;
    var index := 0;
    while index < |items|
      invariant 0 <= index <= |items|
      invariant ListColumns(libs, key, items[..index]).1
      invariant headers' == headers + Headers(ListColumns(libs, key, items[..index]).0)
      invariant values' == values + Values(ListColumns(libs, key, items[..index]).0)
    {
      var item := items[index];
      if !item.JObj? {
        ListTurnStops(libs, key, items, index);
        ListColumnsStops(libs, key, items, index + 1);
        return headers', values', false;
      }
      ListTurn(libs, key, items, index, headers, values, headers', values');
      index := index + 1;
      var prefix := Text.Upper(key) + "_" + Text.NatToString(index);
      headers', values' := AppendSubfields(libs, prefix, item.fields, headers', values');
    }
    Seqs.TakeAll(items);
    return headers', values', true;
  }

  /** An element that is not a dict stops the loop, keeping the columns gathered before it. */
  lemma ListTurnStops(libs: Libs, key: string, items: seq<Json>, index: nat)
    requires index < |items| && !items[index].JObj?
    ensures ListColumns(libs, key, items[..index + 1]) == (ListColumns(libs, key, items[..index]).0, false)
  {
    Seqs.TakeSnoc(items, index);
  }

  /** A dict element numbered index + 1 appends its subfield columns to those gathered before it. */
  lemma ListTurn(libs: Libs, key: string, items: seq<Json>, index: nat,
                 headers: seq<string>, values: seq<string>, headers': seq<string>, values': seq<string>)
    requires index < |items| && items[index].JObj? && ListColumns(libs, key, items[..index]).1
    requires headers' == headers + Headers(ListColumns(libs, key, items[..index]).0)
    requires values' == values + Values(ListColumns(libs, key, items[..index]).0)
    ensures var cols := SubfieldColumns(libs, Text.Upper(key) + "_" + Text.NatToString(index + 1), items[index].fields);
      && ListColumns(libs, key, items[..index + 1]) == (ListColumns(libs, key, items[..index]).0 + cols, true)
      && headers' + Headers(cols) == headers + Headers(ListColumns(libs, key, items[..index + 1]).0)
      && values' + Values(cols) == values + Values(ListColumns(libs, key, items[..index + 1]).0)
  {
    Seqs.TakeSnoc(items, index);
    var before := ListColumns(libs, key, items[..index]).0;
    var cols := SubfieldColumns(libs, Text.Upper(key) + "_" + Text.NatToString(index + 1), items[index].fields);
    HeadersValuesAppend(before, cols);
    Seqs.AppendAssoc(headers, Headers(before), Headers(cols));
    Seqs.AppendAssoc(values, Values(before), Values(cols));
  }

  /** Once an element has stopped the loop, the later elements add nothing. */
  lemma {:induction false} ListColumnsStops(libs: Libs, key: string, items: seq<Json>, n: nat)
    requires n <= |items| && !ListColumns(libs, key, items[..n]).1
    ensures ListColumns(libs, key, items) == ListColumns(libs, key, items[..n])
    decreases |items|
  {
    if n < |items| {
      assert items[..|items| - 1][..n] == items[..n];
      ListColumnsStops(libs, key, items[..|items| - 1], n);
    } else {
      assert items[..n] == items;
    }
  }

  /** Once an entry has raised, the later entries do not matter. */
  lemma {:induction false} ColumnsErrPersists(libs: Libs, fields: seq<(string, Json)>, n: nat)
    requires n <= |fields| && Columns(libs, fields[..n]).Err?
    ensures Columns(libs, fields) == Columns(libs, fields[..n])
    decreases |fields|
  {
    if n < |fields| {
      assert fields[..|fields| - 1][..n] == fields[..n];
      ColumnsErrPersists(libs, fields[..|fields| - 1], n);
    } else {
      assert fields[..n] == fields;
    }
  }

  /** The body of _csv_convert_dataset's loop for one entry of the package dict. */
  method AppendEntry(libs: Libs, key: string, value: Json, headers: seq<string>, values: seq<string>)
    returns (headers': seq<string>, values': seq<string>, ok: bool)
    ensures ok <==> ValueColumns(libs, key, value).Ok?
    ensures ok ==> headers' == headers + Headers(ValueColumns(libs, key, value).value)
    ensures ok ==> values' == values + Values(ValueColumns(libs, key, value).value)
  {
    headers', values', ok := headers, values, true;
    if !Truthy(value) {
      return;
    }
    if !value.JList? && !value.JObj? {
      headers', values' := AppendScalar(libs, key, value, headers, values);
    } else if value.JObj? {
      headers', values' := AppendSubfields(libs, Text.Upper(key), value.fields, headers, values);
    } else {
      headers', values', ok := AppendList(libs, key, value.items, headers, values);
    }
  }

  /** The columns of a truthy value that is neither a list nor a dict: one text column, unless it parses as JSON. */
  method AppendScalar(libs: Libs, key: string, value: Json, headers: seq<string>, values: seq<string>)
    returns (headers': seq<string>, values': seq<string>)
    ensures headers' == headers + Headers(ScalarColumns(libs, key, value))
    ensures values' == values + Values(ScalarColumns(libs, key, value))
  {
    var parsed := if value.JStr? then libs.loads(value.s) else None;
    var textHeader := Quote(Text.Upper(key));
    var textValue := Quote(FormatValue(libs, value));
    OneColumn(TextColumn(libs, key, value));
    if parsed.None? {
      headers', values' := headers + [textHeader], values + [textValue];
    } else if parsed.value.JObj? {
      headers', values' := AppendSubfields(libs, Text.Upper(key), parsed.value.fields, headers, values);
    } else {
      var items := Iterate(parsed.value);
      if items.Err? {
        headers', values' := headers + [textHeader], values + [textValue];
      } else {
        var listed;
        headers', values', listed := AppendList(libs, key, items.value, headers, values);
        if !listed {
          var cols := ListColumns(libs, key, items.value).0;
          HeadersValuesAppend(cols, [TextColumn(libs, key, value)]);
          Seqs.AppendAssoc(headers, Headers(cols), [textHeader]);
          Seqs.AppendAssoc(values, Values(cols), [textValue]);
          headers', values' := headers' + [textHeader], values' + [textValue];
        }
      }
    }
  }

  /** The entry at n raises, or its columns follow those of the entries before it. */
  lemma ColumnsTurn(libs: Libs, fields: seq<(string, Json)>, n: nat)
    requires n < |fields| && Columns(libs, fields[..n]).Ok?
    ensures var last := ValueColumns(libs, fields[n].0, fields[n].1);
      && (last.Err? ==> Columns(libs, fields[..n + 1]) == Err(AttributeError))
      && (last.Ok? ==> Columns(libs, fields[..n + 1]) == Ok(Columns(libs, fields[..n]).value + last.value))
      && (last.Ok? ==> Headers(Columns(libs, fields[..n]).value + last.value) == Headers(Columns(libs, fields[..n]).value) + Headers(last.value))
      && (last.Ok? ==> Values(Columns(libs, fields[..n]).value + last.value) == Values(Columns(libs, fields[..n]).value) + Values(last.value))
  {
    Seqs.TakeSnoc(fields, n);
    var last := ValueColumns(libs, fields[n].0, fields[n].1);
    if last.Ok? {
      HeadersValuesAppend(Columns(libs, fields[..n]).value, last.value);
    }
  }

  /** _csv_convert_dataset, appending to the header and value lists in lockstep. */
  method CsvConvertDataset(libs: Libs, datasetDict: Json) returns (r: Result<string>)
    ensures r == CsvOf(libs, datasetDict)
  {
    if !datasetDict.JObj? {
      return Err(AttributeError);
    }
    var fields := datasetDict.fields;
    var headers: seq<string> := [];
    var values: seq<string> := [];
    var n := 0;
    while n < |fields|
      invariant 0 <= n <= |fields|
      invariant Columns(libs, fields[..n]).Ok?
      invariant headers == Headers(Columns(libs, fields[..n]).value)
      invariant values == Values(Columns(libs, fields[..n]).value)
    {
      var (key, value) := fields[n];
      ColumnsTurn(libs, fields, n);
      var ok;
      headers, values, ok := AppendEntry(libs, key, value, headers, values);
      if !ok {
        ColumnsErrPersists(libs, fields, n + 1);
        return Err(AttributeError);
      }
      n := n + 1;
    }
    Seqs.TakeAll(fields);
    return Ok(Text.Join(headers, ",") + "\n" + Text.Join(values, ","));
  }

  /** A value cell: wrapped in double quotes, with none inside and no line break or apostrophe. */
  predicate CleanCell(v: string) {
    |v| >= 2 && v[0] == '"' && v[|v| - 1] == '"' && '"' !in v[1..|v| - 1]
    && '\n' !in v && '\r' !in v && '\'' !in v
  }

  lemma QuoteClean(s: string)
    requires '"' !in s && '\n' !in s && '\r' !in s && '\'' !in s
    ensures CleanCell(Quote(s))
  {
    assert Quote(s)[1..|Quote(s)| - 1] == s;
  }

  predicate CleanColumns(cols: seq<Column>) {
    forall i :: 0 <= i < |cols| ==> CleanCell(cols[i].value)
  }

  lemma {:induction false} SubfieldColumnsClean(libs: Libs, prefix: string, fields: seq<(string, Json)>)
    ensures CleanColumns(SubfieldColumns(libs, prefix, fields))
    decreases |fields|
  {
    if fields != [] {
      var last := fields[|fields| - 1];
      SubfieldColumnsClean(libs, prefix, fields[..|fields| - 1]);
      QuoteClean(FormatValue(libs, last.1));
    }
  }

  lemma {:induction false} ListColumnsClean(libs: Libs, key: string, items: seq<Json>)
    ensures CleanColumns(ListColumns(libs, key, items).0)
    decreases |items|
  {
    if items != [] {
      ListColumnsClean(libs, key, items[..|items| - 1]);
      var last := items[|items| - 1];
      if last.JObj? {
        SubfieldColumnsClean(libs, Text.Upper(key) + "_" + Text.NatToString(|items|), last.fields);
      }
    }
  }

  lemma ValueColumnsClean(libs: Libs, key: string, value: Json)
    requires ValueColumns(libs, key, value).Ok?
    ensures CleanColumns(ValueColumns(libs, key, value).value)
  {
    QuoteClean(FormatValue(libs, value));
    if value.JObj? {
      SubfieldColumnsClean(libs, Text.Upper(key), value.fields);
    } else if value.JList? {
      ListColumnsClean(libs, key, value.items);
    } else {
      var parsed := if value.JStr? then libs.loads(value.s) else None;
      if parsed.Some? && parsed.value.JObj? {
        SubfieldColumnsClean(libs, Text.Upper(key), parsed.value.fields);
      } else if parsed.Some? && Iterate(parsed.value).Ok? {
        ListColumnsClean(libs, key, Iterate(parsed.value).value);
      }
    }
  }

  lemma {:induction false} ColumnsClean(libs: Libs, fields: seq<(string, Json)>)
    requires Columns(libs, fields).Ok?
    ensures CleanColumns(Columns(libs, fields).value)
    decreases |fields|
  {
    if fields != [] {
      ColumnsClean(libs, fields[..|fields| - 1]);
      ValueColumnsClean(libs, fields[|fields| - 1].0, fields[|fields| - 1].1);
    }
  }

  /**
   * The converted text is a header line, one newline, and a value line of
   * as many clean quoted cells as there are headers: the value line holds
   * no line break, so the newline separates exactly the two lines.
   */
  lemma CsvLayout(libs: Libs, datasetDict: Json)
    requires CsvOf(libs, datasetDict).Ok?
    ensures exists cols: seq<Column> ::
      && CleanColumns(cols)
      && |Headers(cols)| == |Values(cols)|
      && CsvOf(libs, datasetDict).value == Text.Join(Headers(cols), ",") + "\n" + Text.Join(Values(cols), ",")
      && '\n' !in Text.Join(Values(cols), ",")
  {
    var cols := Columns(libs, datasetDict.fields).value;
    ColumnsClean(libs, datasetDict.fields);
    Text.JoinAvoids(Values(cols), ",", '\n');
  }

  /** The entries of a dict whose values are truthy, in order. */
  function TruthyEntries(fields: seq<(string, Json)>): (r: seq<(string, Json)>)
    ensures |r| <= |fields|
    ensures forall i :: 0 <= i < |r| ==> Truthy(r[i].1)
    decreases |fields|
  {
    if fields == [] then []
    else
      var last := fields[|fields| - 1];
      TruthyEntries(fields[..|fields| - 1]) + (if Truthy(last.1) then [last] else [])
  }

  /** A falsy entry of the package dict produces no column: dropping all of them changes nothing. */
  lemma {:induction false} ColumnsIgnoreFalsy(libs: Libs, fields: seq<(string, Json)>)
    ensures Columns(libs, fields) == Columns(libs, TruthyEntries(fields))
    decreases |fields|
  {
    if fields != [] {
      ColumnsIgnoreFalsy(libs, fields[..|fields| - 1]);
      if Truthy(fields[|fields| - 1].1) {
        TruthyEntryKept(libs, fields);
      } else {
        FalsyEntryDropped(libs, fields);
      }
    }
  }

  lemma TruthyEntryKept(libs: Libs, fields: seq<(string, Json)>)
    requires fields != [] && Truthy(fields[|fields| - 1].1)
    requires Columns(libs, fields[..|fields| - 1]) == Columns(libs, TruthyEntries(fields[..|fields| - 1]))
    ensures Columns(libs, fields) == Columns(libs, TruthyEntries(fields))
  {
    var last := fields[|fields| - 1];
    var t := TruthyEntries(fields);
    assert t == TruthyEntries(fields[..|fields| - 1]) + [last];
    Seqs.DropLastAppend(TruthyEntries(fields[..|fields| - 1]), [last]);
    Seqs.AppendEmpty(TruthyEntries(fields[..|fields| - 1]));
  }

  lemma FalsyEntryDropped(libs: Libs, fields: seq<(string, Json)>)
    requires fields != [] && !Truthy(fields[|fields| - 1].1)
    requires Columns(libs, fields[..|fields| - 1]) == Columns(libs, TruthyEntries(fields[..|fields| - 1]))
    ensures Columns(libs, fields) == Columns(libs, TruthyEntries(fields))
  {
    var init := fields[..|fields| - 1];
    Seqs.AppendEmpty(TruthyEntries(init));
    assert TruthyEntries(fields) == TruthyEntries(init);
    if Columns(libs, init).Ok? {
      Seqs.AppendEmpty(Columns(libs, init).value);
    }
  }

  /** Likewise a falsy subfield produces no column: one column per truthy subfield, in order. */
  lemma {:induction false} SubfieldColumnsAreTruthyEntries(libs: Libs, prefix: string, fields: seq<(string, Json)>)
    ensures |SubfieldColumns(libs, prefix, fields)| == |TruthyEntries(fields)|
    ensures forall i :: 0 <= i < |TruthyEntries(fields)| ==>
      SubfieldColumns(libs, prefix, fields)[i]
        == SubfieldColumn(libs, prefix, TruthyEntries(fields)[i].0, TruthyEntries(fields)[i].1)
    decreases |fields|
  {
    if fields != [] {
      SubfieldColumnsAreTruthyEntries(libs, prefix, fields[..|fields| - 1]);
    }
  }

  /** A list value holding something other than a dict raises AttributeError out of the converter. */
  lemma ListWithNonDictRaises(libs: Libs, key: string, d: Json, x: Json)
    requires d.JObj? && !x.JObj?
    ensures ValueColumns(libs, key, JList([d, x])) == Err(AttributeError)
  {
    assert [d, x][..1] == [d];
    assert [d][..0] == [];
  }

  /**
   * The same list given as a JSON string is caught instead: the columns of
   * the dicts before the bad element are kept and a text column follows.
   */
  lemma JsonListWithNonDictFallsBack(libs: Libs, key: string, s: string, d: Json, x: Json)
    requires d.JObj? && !x.JObj? && libs.loads(s) == Some(JList([d, x])) && s != ""
    ensures ValueColumns(libs, key, JStr(s))
      == Ok(SubfieldColumns(libs, Text.Upper(key) + "_1", d.fields) + [TextColumn(libs, key, JStr(s))])
  {
    assert [d, x][..1] == [d];
    FirstDictOfList(libs, key, d);
    var cols := SubfieldColumns(libs, Text.Upper(key) + "_1", d.fields);
    assert ListColumns(libs, key, [d, x]) == (cols, false);
  }

  /** A string that is not JSON, or any other scalar, becomes one text column headed by the upper-cased key. */
  lemma ScalarIsText(libs: Libs, key: string, value: Json)
    requires Truthy(value) && (IsNumber(value) || (value.JStr? && libs.loads(value.s).None?))
    ensures ValueColumns(libs, key, value) == Ok([TextColumn(libs, key, value)])
  {
  }

  /** A dict nested in a list gets headers numbered from 1, as in KEY_1_SUBKEY. */
  lemma ListHeadersNumberedFromOne(libs: Libs, v: Json)
    requires Truthy(v)
    ensures ValueColumns(libs, "author", JList([JObj([("name", v)])])).Ok?
    ensures Headers(ValueColumns(libs, "author", JList([JObj([("name", v)])])).value) == ["\"AUTHOR_1_NAME\""]
  {
    FirstDictOfList(libs, "author", JObj([("name", v)]));
    SingleSubfield(libs, Text.Upper("author") + "_1", "name", v);
    AuthorNameHeader();
  }

  lemma AuthorNameHeader()
    ensures Quote(Text.Upper("author") + "_1" + "_" + Text.Upper("name")) == "\"AUTHOR_1_NAME\""
  {
    UpperAuthorName();
    assert "AUTHOR" + "_1" + "_" + "NAME" == "AUTHOR_1_NAME";
  }

  /** The first element of a list, when it is a dict, gives the columns headed KEY_1_SUBKEY. */
  lemma FirstDictOfList(libs: Libs, key: string, d: Json)
    requires d.JObj?
    ensures ListColumns(libs, key, [d]) == (SubfieldColumns(libs, Text.Upper(key) + "_1", d.fields), true)
  {
    assert [d][..0] == [];
    NatToStringOne();
    assert Text.Upper(key) + "_" + Text.NatToString(|[d]|) == Text.Upper(key) + "_1";
    Seqs.AppendEmpty(SubfieldColumns(libs, Text.Upper(key) + "_1", d.fields));
  }

  lemma NatToStringOne()
    ensures Text.NatToString(1) == "1"
  {
  }

  lemma UpperAuthorName()
    ensures Text.Upper("author") == "AUTHOR" && Text.Upper("name") == "NAME"
  {
  }

  /** A dict with one truthy entry has one column. */
  lemma SingleSubfield(libs: Libs, prefix: string, k: string, v: Json)
    requires Truthy(v)
    ensures SubfieldColumns(libs, prefix, [(k, v)]) == [SubfieldColumn(libs, prefix, k, v)]
  {
    assert [(k, v)][..0] == [];
  }
}

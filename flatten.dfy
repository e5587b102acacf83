/**
 * _flatten_list (and the 3.1 converter's flatten_list): the non-list
 * leaves of a nested list rendered with str(), in order, or with each
 * scalar put in front of what the current call has produced so far when
 * reverse is set.  The converters use it on GeoJSON coordinates to turn
 * [lon, lat] pairs into "lat lon" point strings.
 */
module Flattening {
  import opened Wrappers
  import opened Json
  import opened Libraries

  /** What the loop of one call builds from the items it has visited. */
  function Flattened(libs: Libs, items: seq<Json>, reverse: bool): seq<string>
    decreases items
  {
    if items == [] then []
    else
      var x := items[|items| - 1];
      var prev := Flattened(libs, items[..|items| - 1], reverse);
      if x.JList? then prev + Flattened(libs, x.items, reverse)
      else if reverse then [PyStr(x, libs.repr)] + prev
      else prev + [PyStr(x, libs.repr)]
  }

  /** _flatten_list(input_list, reverse): `for item in input_list` over the argument. */
  function FlattenedValue(libs: Libs, inputList: Json, reverse: bool): (r: Result<seq<string>>)
    ensures r.Err? <==> !(inputList.JList? || inputList.JObj? || inputList.JStr?)
    ensures inputList.JList? ==> r == Ok(Flattened(libs, inputList.items, reverse))
  {
    var items :- Iterate(inputList);
    Ok(Flattened(libs, items, reverse))
  }

  /** The loop of _flatten_list over the items of one list. */
  method FlattenItems(libs: Libs, items: seq<Json>, reverse: bool) returns (outputList: seq<string>)
    ensures outputList == Flattened(libs, items, reverse)
    decreases items
  {
    outputList := [];
    for i := 0 to |items|
      invariant outputList == Flattened(libs, items[..i], reverse)
    {
      var item := items[i];
      assert items[..i + 1][..i] == items[..i];
      if !item.JList? {
        if reverse {
          outputList := [PyStr(item, libs.repr)] + outputList;
        } else {
          outputList := outputList + [PyStr(item, libs.repr)];
        }
      } else {
        var inner := FlattenItems(libs, item.items, reverse);
        outputList := outputList + inner;
      }
    }
    assert items[..|items|] == items;
  }

  /** _flatten_list(input_list, reverse) */
  method FlattenList(libs: Libs, inputList: Json, reverse: bool := false) returns (r: Result<seq<string>>)
    ensures r == FlattenedValue(libs, inputList, reverse)
  {
    var items :- Iterate(inputList);
    var outputList := FlattenItems(libs, items, reverse);
    return Ok(outputList);
  }

  /**
   * The 3.1 converter's public flatten_list: the same loop written out
   * again, recursing through _flatten_list.
   */
  method OldFlattenList(libs: Libs, inputList: Json, reverse: bool := false) returns (r: Result<seq<string>>)
    ensures r == FlattenedValue(libs, inputList, reverse)
  {
    var items :- Iterate(inputList);
    var outputList := [];
    for i := 0 to |items|
      invariant outputList == Flattened(libs, items[..i], reverse)
    {
      var item := items[i];
      assert items[..i + 1][..i] == items[..i];
      if !item.JList? {
        if reverse {
          outputList := [PyStr(item, libs.repr)] + outputList;
        } else {
          outputList := outputList + [PyStr(item, libs.repr)];
        }
      } else {
        var inner := FlattenList(libs, item, reverse);
        outputList := outputList + inner.value;
      }
    }
    assert items[..|items|] == items;
    return Ok(outputList);
  }

  /** The non-list leaves of a nested list, depth first, left to right. */
  function Leaves(items: seq<Json>): (r: seq<Json>)
    ensures forall i :: 0 <= i < |r| ==> !r[i].JList?
    decreases items
  {
    if items == [] then []
    else (if items[0].JList? then Leaves(items[0].items) else [items[0]]) + Leaves(items[1..])
  }

  function Strs(libs: Libs, xs: seq<Json>): (r: seq<string>)
    ensures |r| == |xs|
  {
    seq(|xs|, i requires 0 <= i < |xs| => PyStr(xs[i], libs.repr))
  }

  lemma {:induction false} LeavesAppend(a: seq<Json>, b: seq<Json>)
    ensures Leaves(a + b) == Leaves(a) + Leaves(b)
    decreases a
  {
    if a == [] {
      assert a + b == b;
    } else {
      assert (a + b)[1..] == a[1..] + b;
      LeavesAppend(a[1..], b);
    }
  }

  lemma LeavesLast(items: seq<Json>)
    requires items != []
    ensures var x := items[|items| - 1];
      Leaves(items) == Leaves(items[..|items| - 1]) + (if x.JList? then Leaves(x.items) else [x])
  {
    var x := items[|items| - 1];
    assert items == items[..|items| - 1] + [x];
    LeavesAppend(items[..|items| - 1], [x]);
  }

  lemma StrsAppend(libs: Libs, a: seq<Json>, b: seq<Json>)
    ensures Strs(libs, a + b) == Strs(libs, a) + Strs(libs, b)
  {
  }

  /** Without reverse the output is every non-list leaf rendered with str(), in order. */
  lemma {:induction false} FlattenedInOrder(libs: Libs, items: seq<Json>)
    ensures Flattened(libs, items, false) == Strs(libs, Leaves(items))
    decreases items
  {
    if items != [] {
      var x := items[|items| - 1];
      var init := items[..|items| - 1];
      FlattenedInOrder(libs, init);
      LeavesLast(items);
      if x.JList? {
        FlattenedInOrder(libs, x.items);
        StrsAppend(libs, Leaves(init), Leaves(x.items));
      } else {
        StrsAppend(libs, Leaves(init), [x]);
      }
    }
  }

  /** One string per non-list leaf, with or without reverse. */
  lemma {:induction false} FlattenedLength(libs: Libs, items: seq<Json>, reverse: bool)
    ensures |Flattened(libs, items, reverse)| == |Leaves(items)|
    decreases items
  {
    if items != [] {
      var x := items[|items| - 1];
      FlattenedLength(libs, items[..|items| - 1], reverse);
      LeavesLast(items);
      if x.JList? {
        FlattenedLength(libs, x.items, reverse);
      }
    }
  }

  /** On a list without nested lists, reverse gives the strings in reverse order. */
  lemma {:induction false} FlattenedFlatReversed(libs: Libs, items: seq<Json>)
    requires forall i :: 0 <= i < |items| ==> !items[i].JList?
    ensures var r := Flattened(libs, items, true);
      |r| == |items| && forall i :: 0 <= i < |items| ==> r[i] == PyStr(items[|items| - 1 - i], libs.repr)
  {
    if items != [] {
      FlattenedFlatReversed(libs, items[..|items| - 1]);
    }
  }

  /** A [first, second] pair of scalars. */
  predicate IsPair(x: Json) {
    x.JList? && |x.items| == 2 && !x.items[0].JList? && !x.items[1].JList?
  }

  /**
   * With reverse, a list of pairs comes out with each pair swapped and the
   * pairs in their original order: [[lon, lat], ...] becomes [lat, lon, ...].
   */
  lemma {:induction false} FlattenedPairsSwapped(libs: Libs, items: seq<Json>)
    requires forall i :: 0 <= i < |items| ==> IsPair(items[i])
    ensures var r := Flattened(libs, items, true);
      |r| == 2 * |items| &&
      forall i :: 0 <= i < |items| && IsPair(items[i]) ==>
        r[2 * i] == PyStr(items[i].items[1], libs.repr) && r[2 * i + 1] == PyStr(items[i].items[0], libs.repr)
  {
    if items != [] {
      var x := items[|items| - 1];
      FlattenedPairsSwapped(libs, items[..|items| - 1]);
      FlattenedFlatReversed(libs, x.items);
    }
  }

  /** A missing 'coordinates' key falls back to the string '[]', whose characters come out reversed. */
  lemma FlattenedDefaultCoordinates(libs: Libs)
    ensures FlattenedValue(libs, JStr("[]"), true) == Ok(["]", "["])
  {
    var items := Chars("[]");
    assert items == [JStr("["), JStr("]")];
    assert items[..1] == [JStr("[")];
    assert items[..1][..0] == [];
    assert Flattened(libs, items[..1], true) == ["["];
    assert PyStr(JStr("]"), libs.repr) == "]";
    assert Flattened(libs, items, true) == ["]"] + ["["];
    assert Iterate(JStr("[]")) == Ok(items);
    assert FlattenedValue(libs, JStr("[]"), true) == Ok(Flattened(libs, items, true));
    assert ["]"] + ["["] == ["]", "["];
  }
}

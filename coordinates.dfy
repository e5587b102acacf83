/**
 * GeoJSON coordinate arrays as the ISO 19139 and GCMD DIF converters see
 * them after json.loads: numbers nested in lists to any depth.  Numbers
 * are reals; Python's float rounding is not modelled.
 */
module Geometry {
  import opened Wrappers

  datatype Geo = Num(x: real) | Arr(items: seq<Geo>)

  /** The number of nodes of a coordinate tree. */
  function Size(g: Geo): nat
    decreases g, 1
  {
    match g
    case Num(_) => 1
    case Arr(xs) => 1 + SizeOf(xs)
  }

  function SizeOf(xs: seq<Geo>): nat
    decreases xs, 0
  {
    if xs == [] then 0 else SizeOf(xs[..|xs| - 1]) + Size(xs[|xs| - 1])
  }

  lemma {:induction false} SizeOfAppend(a: seq<Geo>, b: seq<Geo>)
    ensures SizeOf(a + b) == SizeOf(a) + SizeOf(b)
    decreases |b|
  {
    if b != [] {
      var init := b[..|b| - 1];
      assert (a + b)[..|a + b| - 1] == a + init;
      assert (a + b)[|a + b| - 1] == b[|b| - 1];
      SizeOfAppend(a, init);
    } else {
      assert a + b == a;
    }
  }

  /** g[i] on a coordinate value: TypeError on a number, IndexError past the end of a list. */
  function At(g: Geo, i: nat): (r: Result<Geo>)
    ensures r.Ok? <==> g.Arr? && i < |g.items|
    ensures r.Ok? ==> r.value == g.items[i]
  {
    if g.Num? then Err(TypeError)
    else if i < |g.items| then Ok(g.items[i])
    else Err(IndexError)
  }

  /**
   * [item for sublist in flat for item in sublist]: the items of the
   * lists of flat, one level down; TypeError when one of them is a number.
   */
  function Flattened(flat: seq<Geo>): (r: Result<seq<Geo>>)
    ensures r.Ok? <==> forall i :: 0 <= i < |flat| ==> flat[i].Arr?
    ensures r.Ok? ==> SizeOf(r.value) + |flat| == SizeOf(flat)
    ensures r.Err? ==> r.error == TypeError
  {
    if flat == [] then Ok([])
    else
      var init := flat[..|flat| - 1];
      var last := flat[|flat| - 1];
      var prev := Flattened(init);
      assert forall i :: 0 <= i < |init| ==> init[i] == flat[i];
      if prev.Err? then prev
      else if last.Num? then Err(TypeError)
      else
        SizeOfAppend(prev.value, last.items);
        Ok(prev.value + last.items)
  }

  /** Flattened concatenates the item lists, so each item of the result sits in some list of flat. */
  lemma {:induction false} FlattenedItems(flat: seq<Geo>, i: nat, j: nat)
    requires Flattened(flat).Ok? && i < |flat| && j < |flat[i].items|
    ensures flat[i].items[j] in Flattened(flat).value
  {
    var n := |flat| - 1;
    var init := flat[..n];
    assert Flattened(flat).value == Flattened(init).value + flat[n].items;
    if i < n {
      assert init[i] == flat[i];
      FlattenedItems(init, i, j);
    }
  }
}

/** `pd.cut` with finite cut points and a last bin unbounded above (every cut
    in this code base ends with `np.inf`). */
module Binning {
  import opened Basics
  import opened Frames

  predicate Increasing(edges: seq<real>)
  {
    forall i, j :: 0 <= i < j < |edges| ==> edges[i] < edges[j]
  }

  /** Bin `i` lies between `edges[i]` and `edges[i + 1]` (or +inf for the
      last one); `rightClosed` says which end is included. */
  predicate InBin(x: real, edges: seq<real>, i: nat, rightClosed: bool)
    requires i < |edges|
  {
    if rightClosed then edges[i] < x && (i + 1 == |edges| || x <= edges[i + 1])
    else edges[i] <= x && (i + 1 == |edges| || x < edges[i + 1])
  }

  /** Whether cut point `e` lies at or before `x` in numpy's `searchsorted`:
      side "left" (right-closed bins) counts the points strictly below `x`,
      side "right" (left-closed bins) also counts the points equal to it. */
  predicate Passed(e: real, x: real, rightClosed: bool)
  {
    if rightClosed then e < x else e <= x
  }

  /** numpy's `searchsorted` position of `x`: how many cut points it has
      passed. With increasing cut points those form a prefix, so the count
      splits the cut points into the passed ones and the rest. */
  function CountPassed(edges: seq<real>, x: real, rightClosed: bool): (r: nat)
    ensures r <= |edges|
    ensures Increasing(edges) ==> forall i :: 0 <= i < r ==> Passed(edges[i], x, rightClosed)
    ensures Increasing(edges) ==> forall i :: r <= i < |edges| ==> !Passed(edges[i], x, rightClosed)
  {
    if edges == [] then 0
    else
      assert Increasing(edges) ==> Increasing(edges[1..]);
      assert Increasing(edges) ==> forall i :: 0 < i < |edges| ==> edges[0] < edges[i];
      (if Passed(edges[0], x, rightClosed) then 1 else 0) + CountPassed(edges[1..], x, rightClosed)
  }

  /** The bin pandas assigns: the `searchsorted` position minus one, or none
      (NaN) when `x` lies before the first cut point. */
  function BinIndex(x: real, edges: seq<real>, rightClosed: bool): (r: Option<nat>)
    ensures r.Some? ==> r.value < |edges|
  {
    var k := CountPassed(edges, x, rightClosed);
    if k == 0 then None else Some(k - 1)
  }

  /** The searchsorted bin is the interval that holds `x`: a value gets a
      bin exactly when it lies past the lowest cut point, and that bin is the
      only interval holding it. */
  lemma BinIndexIsInterval(x: real, edges: seq<real>, rightClosed: bool)
    requires Increasing(edges) && |edges| > 0
    ensures BinIndex(x, edges, rightClosed).Some? <==> Passed(edges[0], x, rightClosed)
    ensures BinIndex(x, edges, rightClosed).Some? ==>
              InBin(x, edges, BinIndex(x, edges, rightClosed).value, rightClosed)
    ensures forall i :: 0 <= i < |edges| && InBin(x, edges, i, rightClosed) ==>
              BinIndex(x, edges, rightClosed) == Some(i)
  {
  }

  /** One cell of `pd.cut(series, bins, labels, right)`. */
  function CutCell(c: Cell, edges: seq<real>, labels: seq<string>, rightClosed: bool): Cell
    requires |labels| == |edges|
  {
    if c.Num? then
      match BinIndex(c.v, edges, rightClosed)
      case Some(i) => Label(labels[i])
      case None => Missing
    else Missing
  }

  function Cut(col: seq<Cell>, edges: seq<real>, labels: seq<string>, rightClosed: bool): (r: seq<Cell>)
    requires |labels| == |edges|
    ensures |r| == |col|
  {
    seq(|col|, i requires 0 <= i < |col| => CutCell(col[i], edges, labels, rightClosed))
  }

  /** A number gets the label of the interval that holds it, and no label
      when it lies before the lowest cut point. */
  lemma CutCellIsInterval(x: real, edges: seq<real>, labels: seq<string>, rightClosed: bool)
    requires Increasing(edges) && |edges| > 0 && |labels| == |edges|
    ensures CutCell(Num(x), edges, labels, rightClosed) == Missing <==> !Passed(edges[0], x, rightClosed)
    ensures forall i :: 0 <= i < |edges| && InBin(x, edges, i, rightClosed) ==>
              CutCell(Num(x), edges, labels, rightClosed) == Label(labels[i])
  {
    BinIndexIsInterval(x, edges, rightClosed);
  }
}

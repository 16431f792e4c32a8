/** The tabular batch both feature pipelines work on: an ordered list of
    column names, one column of cells per name, and a row count (pandas keeps
    the row index even when a frame has no column). */
module Frames {
  import opened Basics

  /** One cell of a frame. `Missing` is pandas NaN; `Label` is a category
      produced by binning; `Log1p(x)` is the value ln(1 + x), kept as an
      uninterpreted term so that no numeric claim is made about it. */
  datatype Cell = Missing | Num(v: real) | Label(text: string) | Log1p(arg: real)

  /** The numeric reading of a cell: only `Num` cells carry a number. */
  function Val(c: Cell): Option<real>
  {
    if c.Num? then Some(c.v) else None
  }

  /** `fillna(0)` followed by a numeric read. */
  function OrZero(c: Cell): (r: real)
    ensures Val(c).Some? ==> r == Val(c).value
    ensures Val(c).None? ==> r == 0.0
  {
    if c.Num? then c.v else 0.0
  }

  /** A boolean series cast with `astype(int)`. */
  function Flag(b: bool): Cell
  {
    Num(if b then 1.0 else 0.0)
  }

  /** Element-wise product of two series; NaN propagates. */
  function Product(a: Cell, b: Cell): (r: Cell)
    ensures r.Num? <==> a.Num? && b.Num?
    ensures r.Num? ==> r.v == a.v * b.v
  {
    if a.Num? && b.Num? then Num(a.v * b.v) else Missing
  }

  /** `np.log1p` of a series; NaN propagates. */
  function Log1pOf(c: Cell): Cell
  {
    if c.Num? then Log1p(c.v) else Missing
  }

  /** The numeric values of a column in row order: what `median` and
      `quantile` see once NaN is skipped. */
  function Present(col: seq<Cell>): (r: seq<real>)
    ensures |r| <= |col|
    ensures forall x :: x in r <==> Num(x) in col
  {
    if col == [] then []
    else Present(col[..|col| - 1]) + (if col[|col| - 1].Num? then [col[|col| - 1].v] else [])
  }

  /** Every number occurs in `Present(col)` as often as the column holds it,
      so the statistics over it see repeated values with their weight. */
  lemma {:induction false} PresentMultiplicity(col: seq<Cell>, x: real)
    ensures multiset(Present(col))[x] == |NumRows(col, x)|
  {
    if col != [] {
      var n := |col| - 1;
      var init := col[..n];
      PresentMultiplicity(init, x);
      var tail: seq<real> := if col[n].Num? then [col[n].v] else [];
      assert Present(col) == Present(init) + tail;
      assert multiset(Present(col)) == multiset(Present(init)) + multiset(tail);
      NumRowsSnoc(col, x);
    }
  }

  /** The rows of a column that hold the number `x`. */
  function NumRows(col: seq<Cell>, x: real): set<nat>
  {
    set i: nat | i < |col| && col[i] == Num(x)
  }

  lemma NumRowsSnoc(col: seq<Cell>, x: real)
    requires col != []
    ensures var n := |col| - 1;
            NumRows(col, x) == NumRows(col[..n], x) + (if col[n] == Num(x) then {n} else {})
  {
  }

  /** A scalar broadcast to every row, as in `df[c] = 0`. */
  function Const(n: nat, c: Cell): (r: seq<Cell>)
    ensures |r| == n && forall i :: 0 <= i < n ==> r[i] == c
  {
    seq(n, _ => c)
  }

  // Series operations shared by both feature pipelines

  /** `np.log1p(series)`: a log term for every number, NaN elsewhere. */
  function Log1pColumn(col: seq<Cell>): (r: seq<Cell>)
    ensures |r| == |col|
    ensures forall i :: 0 <= i < |col| ==> (r[i].Log1p? <==> col[i].Num?) && (r[i].Log1p? ==> r[i].arg == col[i].v)
  {
    seq(|col|, i requires 0 <= i < |col| => Log1pOf(col[i]))
  }

  /** Multiplying the number `q` by `den` gives back `num`. */
  predicate Undoes(q: Cell, den: Cell, num: Cell)
  {
    q.Num? && den.Num? && num.Num? && q.v * den.v == num.v
  }

  /** `(num / den.replace(0, np.nan)).fillna(0)`: the quotient where both
      are present and the denominator is not zero, 0 everywhere else. */
  function SafeRatio(num: Cell, den: Cell): (r: Cell)
    ensures r.Num?
    ensures num.Num? && den.Num? && den.v != 0.0 ==> Undoes(r, den, num)
    ensures !(num.Num? && den.Num? && den.v != 0.0) ==> r.v == 0.0
  {
    if num.Num? && den.Num? && den.v != 0.0 then Num(num.v / den.v) else Num(0.0)
  }

  function SafeRatioColumn(num: seq<Cell>, den: seq<Cell>): (r: seq<Cell>)
    requires |num| == |den|
    ensures |r| == |num| && forall i :: 0 <= i < |num| ==> r[i] == SafeRatio(num[i], den[i])
  {
    seq(|num|, i requires 0 <= i < |num| => SafeRatio(num[i], den[i]))
  }

  /** `(series >= thr).astype(int)`; NaN compares false. */
  function AtLeastColumn(col: seq<Cell>, thr: real): (r: seq<Cell>)
    ensures |r| == |col|
    ensures forall i :: 0 <= i < |col| ==> r[i] == Num(1.0) || r[i] == Num(0.0)
    ensures forall i :: 0 <= i < |col| ==> (r[i] == Num(1.0) <==> col[i].Num? && col[i].v >= thr)
  {
    seq(|col|, i requires 0 <= i < |col| => Flag(col[i].Num? && col[i].v >= thr))
  }

  /** `(series > thr).astype(int)`; NaN compares false. */
  function AboveColumn(col: seq<Cell>, thr: real): (r: seq<Cell>)
    ensures |r| == |col|
    ensures forall i :: 0 <= i < |col| ==> r[i] == Num(1.0) || r[i] == Num(0.0)
    ensures forall i :: 0 <= i < |col| ==> (r[i] == Num(1.0) <==> col[i].Num? && col[i].v > thr)
  {
    seq(|col|, i requires 0 <= i < |col| => Flag(col[i].Num? && col[i].v > thr))
  }

  /** `df[cols].sum(axis=1)`: the row sum, NaN counting as 0. */
  function SumColumn(a: seq<Cell>, b: seq<Cell>, c: seq<Cell>): (r: seq<Cell>)
    requires |a| == |b| == |c|
    ensures |r| == |a|
    ensures forall i :: 0 <= i < |a| ==> r[i] == Num(OrZero(a[i]) + OrZero(b[i]) + OrZero(c[i]))
  {
    seq(|a|, i requires 0 <= i < |a| => Num(OrZero(a[i]) + OrZero(b[i]) + OrZero(c[i])))
  }

  /** Element-wise product of two aligned series. */
  function ProductColumn(a: seq<Cell>, b: seq<Cell>): (r: seq<Cell>)
    requires |a| == |b|
    ensures |r| == |a| && forall i :: 0 <= i < |a| ==> r[i] == Product(a[i], b[i])
  {
    seq(|a|, i requires 0 <= i < |a| => Product(a[i], b[i]))
  }

  predicate Distinct(s: seq<string>)
  {
    forall i, j :: 0 <= i < j < |s| ==> s[i] != s[j]
  }

  /** The names of `s` not in `drop`, in their original order. */
  function Keep(s: seq<string>, drop: set<string>): (r: seq<string>)
    ensures |r| <= |s|
    ensures forall x :: x in r <==> x in s && x !in drop
  {
    if s == [] then []
    else Keep(s[..|s| - 1], drop) + (if s[|s| - 1] in drop then [] else [s[|s| - 1]])
  }

  lemma {:induction false} KeepDistinct(s: seq<string>, drop: set<string>)
    requires Distinct(s)
    ensures Distinct(Keep(s, drop))
  {
    if s != [] {
      KeepDistinct(s[..|s| - 1], drop);
    }
  }

  /** Dropping names that are not there changes nothing. */
  lemma {:induction false} KeepNothing(s: seq<string>, drop: set<string>)
    requires forall x :: x in s ==> x !in drop
    ensures Keep(s, drop) == s
  {
    if s != [] {
      KeepNothing(s[..|s| - 1], drop);
      assert s == s[..|s| - 1] + [s[|s| - 1]];
    }
  }

  /** Two filters in a row are one filter by the union. */
  lemma {:induction false} KeepKeep(s: seq<string>, a: set<string>, b: set<string>)
    ensures Keep(Keep(s, a), b) == Keep(s, a + b)
  {
    if s != [] {
      var init := s[..|s| - 1];
      KeepKeep(init, a, b);
      var k := Keep(init, a);
      if s[|s| - 1] !in a {
        assert (k + [s[|s| - 1]])[..|k|] == k;
      } else {
        assert k + [] == k;
      }
    }
  }

  /** The position of a name in a list of names (its length when absent). */
  function IndexOf(s: seq<string>, x: string): (r: nat)
    ensures r <= |s|
    ensures r < |s| <==> x in s
    ensures r < |s| ==> s[r] == x && forall j :: 0 <= j < r ==> s[j] != x
  {
    if s == [] then 0 else if s[0] == x then 0 else 1 + IndexOf(s[1..], x)
  }

  /** `Keep` preserves the relative order of the names it keeps. */
  lemma {:induction false} KeepOrder(s: seq<string>, drop: set<string>, i: nat, j: nat)
    requires Distinct(s)
    requires i < j < |Keep(s, drop)|
    ensures IndexOf(s, Keep(s, drop)[i]) < IndexOf(s, Keep(s, drop)[j])
  {
    var init := s[..|s| - 1];
    var last := s[|s| - 1];
    var k := Keep(s, drop);
    var ki := Keep(init, drop);
    KeepDistinct(init, drop);
    assert forall x :: x in init ==> IndexOf(s, x) == IndexOf(init, x) by {
      forall x | x in init ensures IndexOf(s, x) == IndexOf(init, x) {
        IndexPrefix(init, last, x);
      }
    }
    if j < |ki| {
      KeepOrder(init, drop, i, j);
      assert k[i] == ki[i] && k[j] == ki[j];
    } else {
      assert k[j] == last && k[i] == ki[i];
      assert k[i] in init;
      assert IndexOf(s, last) == |s| - 1 by {
        assert s[|s| - 1] == last;
        forall m | 0 <= m < |s| - 1 ensures s[m] != last { }
      }
    }
  }

  lemma {:induction false} IndexPrefix(init: seq<string>, last: string, x: string)
    requires x in init
    ensures IndexOf(init + [last], x) == IndexOf(init, x)
  {
    if init[0] != x {
      assert (init + [last])[1..] == init[1..] + [last];
      IndexPrefix(init[1..], last, x);
    }
  }

  /** A pandas DataFrame as a value. */
  datatype Table = Table(names: seq<string>, cols: map<string, seq<Cell>>, rows: nat) {

    /** Column names are unique, name exactly the stored columns, and every
        column has one cell per row. */
    ghost predicate Valid()
    {
      && Distinct(names)
      && (forall n :: n in cols <==> n in names)
      && (forall n :: n in cols ==> |cols[n]| == rows)
    }

    /** `df[name] = col`: overwrite in place when the column exists,
        otherwise append it as the last column. */
    function With(name: string, col: seq<Cell>): (r: Table)
      ensures r.rows == rows && name in r.cols && r.cols[name] == col
      ensures forall n :: n in r.cols <==> n in cols || n == name
      ensures forall n :: n in cols && n != name ==> n in r.cols && r.cols[n] == cols[n]
      ensures Valid() && |col| == rows ==> r.Valid()
    {
      Table(if name in names then names else names + [name], cols[name := col], rows)
    }

    /** `df.drop(columns=[name])` when `name` is present; no change otherwise. */
    function Without(name: string): (r: Table)
      ensures r.rows == rows && name !in r.cols
      ensures forall n :: n in r.cols <==> n in cols && n != name
      ensures forall n :: n in cols && n != name ==> n in r.cols && r.cols[n] == cols[n]
      ensures Valid() ==> r.Valid()
    {
      KeepDistinctIf(names, {name});
      Table(Keep(names, {name}), cols - {name}, rows)
    }
  }

  lemma KeepDistinctIf(s: seq<string>, drop: set<string>)
    ensures Distinct(s) ==> Distinct(Keep(s, drop))
  {
    if Distinct(s) {
      KeepDistinct(s, drop);
    }
  }

  /** Writing one column and dropping another commute. */
  lemma WithoutWith(t: Table, c: string, n: string, col: seq<Cell>)
    requires c != n
    ensures t.With(n, col).Without(c) == t.Without(c).With(n, col)
  {
    if n !in t.names {
      KeepSnoc(t.names, {c}, n);
    }
    assert t.cols[n := col] - {c} == (t.cols - {c})[n := col];
  }

  lemma KeepSnoc(s: seq<string>, drop: set<string>, x: string)
    requires x !in drop
    ensures Keep(s + [x], drop) == Keep(s, drop) + [x]
  {
    assert (s + [x])[..|s|] == s;
  }

  /** Two maps with the same keys and the same value under each key are equal. */
  lemma SameMaps<K, V>(a: map<K, V>, b: map<K, V>)
    requires forall k :: k in b ==> k in a && a[k] == b[k]
    requires forall k :: k in a ==> k in b
    ensures a == b
  {
  }

  /** Dropping a column that is not there leaves a valid table as it is. */
  lemma WithoutAbsent(t: Table, c: string)
    requires t.Valid() && c !in t.names
    ensures t.Without(c) == t
  {
    KeepNothing(t.names, {c});
  }

  /** Writing the same column twice keeps only the second write. */
  lemma WithWith(t: Table, n: string, a: seq<Cell>, b: seq<Cell>)
    ensures t.With(n, a).With(n, b) == t.With(n, b)
  {
  }

  /** `r` is `t` with columns written only under the names in `written`:
      no row and no column is lost, existing columns keep their place, new
      columns come after them, and every other column keeps its cells. */
  ghost predicate Extends(t: Table, r: Table, written: set<string>)
  {
    && r.rows == t.rows
    && |t.names| <= |r.names| && r.names[..|t.names|] == t.names
    && (forall n :: n in t.cols ==> n in r.cols)
    && (forall n :: n in t.cols && n !in written ==> r.cols[n] == t.cols[n])
    && (forall n :: n in r.cols ==> n in t.cols || n in written)
  }

  lemma ExtendsRefl(t: Table, written: set<string>)
    ensures Extends(t, t, written)
  {
  }

  lemma WithExtends(t: Table, n: string, col: seq<Cell>, written: set<string>)
    requires n in written
    ensures Extends(t, t.With(n, col), written)
  {
    if n !in t.names {
      assert (t.names + [n])[..|t.names|] == t.names;
    }
  }

  lemma ExtendsWith(t: Table, u: Table, n: string, col: seq<Cell>, written: set<string>)
    requires Extends(t, u, written) && n in written
    ensures Extends(t, u.With(n, col), written)
  {
    WithExtends(u, n, col, written);
    ExtendsTrans(t, u, u.With(n, col), written);
  }

  lemma ExtendsTrans(t: Table, u: Table, v: Table, written: set<string>)
    requires Extends(t, u, written) && Extends(u, v, written)
    ensures Extends(t, v, written)
  {
    assert v.names[..|t.names|] == v.names[..|u.names|][..|t.names|];
  }

  /** The mutable frame a pandas stage works on after `df = df.copy()`. */
  class Frame {
    var names: seq<string>
    var cols: map<string, seq<Cell>>
    var rows: nat

    /** The frame's current contents as a value. */
    function Value(): Table
      reads this
    {
      Table(names, cols, rows)
    }

    /** `df.copy()` */
    constructor Copy(t: Table)
      ensures Value() == t
    {
      names := t.names;
      cols := t.cols;
      rows := t.rows;
    }

    /** `df[name] = col`; pandas rejects a series of the wrong length. */
    method Assign(name: string, col: seq<Cell>)
      requires |col| == rows
      modifies this
      ensures Value() == old(Value()).With(name, col)
    {
      if name !in names {
        names := names + [name];
      }
      cols := cols[name := col];
    }

    /** `df = df.drop(columns=[name])` */
    method Drop(name: string)
      modifies this
      ensures Value() == old(Value()).Without(name)
    {
      names := Keep(names, {name});
      cols := cols - {name};
    }
  }
}

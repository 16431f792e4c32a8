/** `src/data_preprocessing.py`: the cleaning, feature synthesis and feature
    selection stages that turn a raw applicant batch into the model's input.
    Each stage copies the frame and then writes columns on the copy one after
    another; it is modelled by a method over a `Frame` and proved equal to a
    function that states the resulting table. */
module Preprocessing {
  import opened Basics
  import opened Frames
  import opened Schema
  import Stats
  import Binning

  const DELINQ_COLS: seq<string> := [PAST_DUE_30_59, PAST_DUE_60_89, LATE_90]

  /** The columns clean_basic treats specially are four different ones, and
      none of them is a delinquency count. */
  lemma CleaningNamesDistinct()
    ensures AGE != MONTHLY_INCOME && AGE != DEPENDENTS && MONTHLY_INCOME != DEPENDENTS
    ensures INDEX_COL !in DELINQ_COLS && AGE !in DELINQ_COLS && MONTHLY_INCOME !in DELINQ_COLS && DEPENDENTS !in DELINQ_COLS
    ensures DELINQ_COLS == [PAST_DUE_30_59, PAST_DUE_60_89, LATE_90]
    ensures PAST_DUE_30_59 != PAST_DUE_60_89 && PAST_DUE_30_59 != LATE_90 && PAST_DUE_60_89 != LATE_90
  {
  }

  /** Columns removed by the final feature selection. */
  const FINAL_DROP_COLS: seq<string> := [
    PAST_DUE_30_59, LATE_90, PAST_DUE_60_89, TOTAL_DELINQUENCY,
    DEBT_RATIO, INCOME_X_AGE, INCOME_LOG1P,
    CREDIT_LINE_DENSITY
  ]

  /** Delinquency counts are capped here (the raw data uses 96/98 as codes). */
  const DELINQ_CAP: real := 10.0

  /** Rows whose debt-to-income ratio reaches this batch quantile are flagged. */
  const HIGH_DEBT_QUANTILE: real := 0.93

  // ---------------------------------------------------------------------
  // 1) clean_basic
  // ---------------------------------------------------------------------

  /** `df.loc[df["age"] == 0, "age"] = np.nan` */
  function MaskZeros(col: seq<Cell>): (r: seq<Cell>)
    ensures |r| == |col|
  {
    seq(|col|, i requires 0 <= i < |col| => if col[i] == Num(0.0) then Missing else col[i])
  }

  /** `series.fillna(fill)`; filling with NaN changes nothing. */
  function FillNa(col: seq<Cell>, fill: Option<real>): (r: seq<Cell>)
    ensures |r| == |col|
  {
    seq(|col|, i requires 0 <= i < |col| =>
      if col[i].Missing? && fill.Some? then Num(fill.value) else col[i])
  }

  /** `series.clip(upper=hi)`: every number ends at most `hi`, numbers
      already at most `hi` and NaN are left as they are. */
  function ClipUpper(col: seq<Cell>, hi: real): (r: seq<Cell>)
    ensures |r| == |col|
    ensures forall i :: 0 <= i < |r| ==> (r[i].Num? <==> col[i].Num?)
    ensures forall i :: 0 <= i < |r| && r[i].Num? ==> r[i].v <= hi
    ensures forall i :: 0 <= i < |r| && !(col[i].Num? && col[i].v > hi) ==> r[i] == col[i]
  {
    seq(|col|, i requires 0 <= i < |col| =>
      if col[i].Num? && col[i].v > hi then Num(hi) else col[i])
  }

  /** The age column after zero ages are masked and all gaps are filled with
      the median of the remaining ages. */
  function ImputeAge(col: seq<Cell>): (r: seq<Cell>)
    ensures |r| == |col|
  {
    var masked := MaskZeros(col);
    FillNa(masked, Stats.Median(Present(masked)))
  }

  /** Median imputation of a column's gaps. */
  function ImputeMedian(col: seq<Cell>): (r: seq<Cell>)
    ensures |r| == |col|
  {
    FillNa(col, Stats.Median(Present(col)))
  }

  /** What cleaning does to the column called `name`. */
  function CleanColumn(name: string, col: seq<Cell>): (r: seq<Cell>)
    ensures |r| == |col|
  {
    if name == AGE then ImputeAge(col)
    else if name == MONTHLY_INCOME || name == DEPENDENTS then ImputeMedian(col)
    else if name in DELINQ_COLS then ClipUpper(col, DELINQ_CAP)
    else col
  }

  /** The cleaned batch, column by column: the index column is gone, every
      other column keeps its place and is cleaned on its own. */
  function Cleaned(t: Table): (r: Table)
    ensures t.Valid() ==> r.Valid() && r.rows == t.rows
  {
    KeepDistinctIf(t.names, {INDEX_COL});
    Table(Keep(t.names, {INDEX_COL}),
          map n | n in t.cols && n != INDEX_COL :: CleanColumn(n, t.cols[n]),
          t.rows)
  }

  /** clean_basic, step by step on a copy of the frame. */
  method CleanBasic(df: Table) returns (out: Table)
    requires df.Valid()
    ensures out == Cleaned(df)
  {
    var f := new Frame.Copy(df);
    // 1) the technical index column
    if INDEX_COL in f.names {
      f.Drop(INDEX_COL);
    }
    WithoutAbsentOr(df, INDEX_COL);
    // 2) and 3) median imputation
    ImputeAgeColumn(f);
    ImputeMedianColumn(f, MONTHLY_INCOME);
    ImputeMedianColumn(f, DEPENDENTS);
    assert f.Value() == Imputed(df);
    ImputedBeforeCapping(df);
    // 4) capping of the delinquency counts
    CapDelinquencyColumns(f, df);
    CappedAll(df, f.Value());
    out := f.Value();
  }

  /** Step 2 of clean_basic: zero ages become NaN, then every NaN age becomes
      the median of the ages that are left. */
  method ImputeAgeColumn(f: Frame)
    requires f.Value().Valid()
    modifies f
    ensures f.Value() == if AGE in old(f.names) then old(f.Value()).With(AGE, ImputeAge(old(f.cols[AGE]))) else old(f.Value())
  {
    if AGE in f.names {
      ghost var before := f.Value();
      f.Assign(AGE, MaskZeros(f.cols[AGE]));
      var ageMedian := Stats.Median(Present(f.cols[AGE]));
      f.Assign(AGE, FillNa(f.cols[AGE], ageMedian));
      WithWith(before, AGE, MaskZeros(before.cols[AGE]), ImputeAge(before.cols[AGE]));
    }
  }

  /** Step 3 of clean_basic for one column: NaN becomes the column median. */
  method ImputeMedianColumn(f: Frame, name: string)
    requires f.Value().Valid()
    modifies f
    ensures f.Value().Valid()
    ensures f.Value() == if name in old(f.names) then old(f.Value()).With(name, ImputeMedian(old(f.cols[name]))) else old(f.Value())
  {
    if name in f.names {
      var median := Stats.Median(Present(f.cols[name]));
      f.Assign(name, FillNa(f.cols[name], median));
    }
  }

  /** Step 4 of clean_basic: the loop over DELINQ_COLS. */
  method CapDelinquencyColumns(f: Frame, ghost df: Table)
    requires df.Valid() && CappedThrough(df, f.Value(), 0)
    modifies f
    ensures CappedThrough(df, f.Value(), |DELINQ_COLS|)
  {
    for k := 0 to |DELINQ_COLS|
      invariant CappedThrough(df, f.Value(), k)
    {
      ghost var before := f.Value();
      var c := DELINQ_COLS[k];
      if c in f.names {
        f.Assign(c, ClipUpper(f.cols[c], DELINQ_CAP));
      }
      CapStep(df, before, k);
    }
  }

  /** The loop invariant of the capping loop: the first `k` delinquency
      columns are capped, the others are as the input had them, and every
      other column is already clean. */
  ghost predicate CappedThrough(df: Table, u: Table, k: nat)
    requires df.Valid()
  {
    && k <= |DELINQ_COLS|
    && u.Valid() && u.rows == df.rows && u.names == Keep(df.names, {INDEX_COL})
    && (forall n :: n in u.cols <==> n in df.cols && n != INDEX_COL)
    && (forall n :: n in u.cols ==>
          u.cols[n] == (if n in DELINQ_COLS[k..] then df.cols[n] else CleanColumn(n, df.cols[n])))
  }

  lemma CapStep(df: Table, u: Table, k: nat)
    requires df.Valid() && k < |DELINQ_COLS| && CappedThrough(df, u, k)
    ensures
      var c := DELINQ_COLS[k];
      CappedThrough(df, if c in u.names then u.With(c, ClipUpper(u.cols[c], DELINQ_CAP)) else u, k + 1)
  {
    var c := DELINQ_COLS[k];
    assert DELINQ_COLS[k..] == [c] + DELINQ_COLS[k + 1..];
    assert c !in DELINQ_COLS[k + 1..] by {
      assert DELINQ_COLS == [PAST_DUE_30_59, PAST_DUE_60_89, LATE_90];
    }
    if c in u.names {
      CapStepPresent(df, u, k, c);
    } else {
      forall n | n in u.cols
        ensures n in DELINQ_COLS[k..] <==> n in DELINQ_COLS[k + 1..]
      {
      }
    }
  }

  lemma CapStepPresent(df: Table, u: Table, k: nat, c: string)
    requires df.Valid() && k < |DELINQ_COLS| && CappedThrough(df, u, k)
    requires c == DELINQ_COLS[k] && c in u.names && c !in DELINQ_COLS[k + 1..]
    requires DELINQ_COLS[k..] == [c] + DELINQ_COLS[k + 1..]
    ensures CappedThrough(df, u.With(c, ClipUpper(u.cols[c], DELINQ_CAP)), k + 1)
  {
    var w := u.With(c, ClipUpper(u.cols[c], DELINQ_CAP));
    assert c in u.cols;
    assert w.names == u.names && w.Valid() && w.rows == df.rows;
    assert forall n :: n in w.cols <==> n in u.cols;
    assert forall n :: n in w.cols ==>
        w.cols[n] == (if n in DELINQ_COLS[k + 1..] then df.cols[n] else CleanColumn(n, df.cols[n])) by {
      forall n | n in w.cols
        ensures w.cols[n] == (if n in DELINQ_COLS[k + 1..] then df.cols[n] else CleanColumn(n, df.cols[n]))
      {
        if n == c {
          assert c != AGE && c != MONTHLY_INCOME && c != DEPENDENTS && c in DELINQ_COLS;
          assert w.cols[c] == CleanColumn(c, df.cols[c]);
        } else {
          assert n in DELINQ_COLS[k..] <==> n in DELINQ_COLS[k + 1..];
        }
      }
    }
    CappedThroughIntro(df, w, k + 1);
  }

  lemma CappedThroughIntro(df: Table, u: Table, k: nat)
    requires df.Valid()
    requires k <= |DELINQ_COLS|
    requires u.Valid() && u.rows == df.rows
    requires u.names == Keep(df.names, {INDEX_COL})
    requires forall n :: n in u.cols <==> n in df.cols && n != INDEX_COL
    requires forall n :: n in u.cols ==>
          u.cols[n] == (if n in DELINQ_COLS[k..] then df.cols[n] else CleanColumn(n, df.cols[n]))
    ensures CappedThrough(df, u, k)
  {
  }



  lemma CappedAll(df: Table, u: Table)
    requires df.Valid() && CappedThrough(df, u, |DELINQ_COLS|)
    ensures u == Cleaned(df)
  {
    var r := Cleaned(df);
    assert u.cols == r.cols;
  }

  /** The frame before the capping loop: the index column dropped, then
      age, income and dependents imputed in that order. */
  function Imputed(df: Table): (r: Table)
    requires df.Valid()
    ensures r.Valid() && r.rows == df.rows
  {
    var dropped := df.Without(INDEX_COL);
    var aged := if AGE in dropped.names then dropped.With(AGE, ImputeAge(dropped.cols[AGE])) else dropped;
    var earned := if MONTHLY_INCOME in aged.names then aged.With(MONTHLY_INCOME, ImputeMedian(aged.cols[MONTHLY_INCOME])) else aged;
    if DEPENDENTS in earned.names then earned.With(DEPENDENTS, ImputeMedian(earned.cols[DEPENDENTS])) else earned
  }

  /** Before the capping loop every column but the counts is final. */
  lemma ImputedColumn(df: Table, n: string)
    requires df.Valid() && n in df.cols && n != INDEX_COL
    ensures n in Imputed(df).cols
    ensures Imputed(df).cols[n] == (if n in DELINQ_COLS then df.cols[n] else CleanColumn(n, df.cols[n]))
  {
    var dropped := df.Without(INDEX_COL);
    assert n in dropped.cols && dropped.cols[n] == df.cols[n];
    var aged := if AGE in dropped.names then dropped.With(AGE, ImputeAge(dropped.cols[AGE])) else dropped;
    var earned := if MONTHLY_INCOME in aged.names then aged.With(MONTHLY_INCOME, ImputeMedian(aged.cols[MONTHLY_INCOME])) else aged;
    var u := if DEPENDENTS in earned.names then earned.With(DEPENDENTS, ImputeMedian(earned.cols[DEPENDENTS])) else earned;
    assert u == Imputed(df);
    CleaningNamesDistinct();
    if n == AGE {
      assert u.cols[n] == earned.cols[n] == aged.cols[n] == ImputeAge(df.cols[n]);
    } else if n == MONTHLY_INCOME {
      assert u.cols[n] == earned.cols[n] == ImputeMedian(df.cols[n]);
    } else if n == DEPENDENTS {
      assert u.cols[n] == ImputeMedian(earned.cols[n]);
    } else {
      assert u.cols[n] == df.cols[n];
      assert CleanColumn(n, df.cols[n]) == if n in DELINQ_COLS then ClipUpper(df.cols[n], DELINQ_CAP) else df.cols[n];
    }
  }


  /** The frame before the capping loop: the index column is gone and the
      three imputed columns are final. */
  lemma ImputedBeforeCapping(df: Table)
    requires df.Valid()
    ensures CappedThrough(df, Imputed(df), 0)
  {
    var u := Imputed(df);
    assert DELINQ_COLS[0..] == DELINQ_COLS;
    var dropped := df.Without(INDEX_COL);
    assert u.names == dropped.names;
    forall n | n in u.cols
      ensures u.cols[n] == (if n in DELINQ_COLS[0..] then df.cols[n] else CleanColumn(n, df.cols[n]))
    {
      ImputedColumn(df, n);
    }
  }


  lemma WithoutAbsentOr(t: Table, c: string)
    requires t.Valid()
    ensures c !in t.names ==> t.Without(c) == t
  {
    if c !in t.names {
      WithoutAbsent(t, c);
    }
  }
  // ---------------------------------------------------------------------
  // Properties of clean_basic
  // ---------------------------------------------------------------------

  /** The ages the age median is taken over: the present ages other than 0. */
  function NonZeroAges(col: seq<Cell>): seq<real>
  {
    if col == [] then []
    else
      var last := col[|col| - 1];
      NonZeroAges(col[..|col| - 1]) + (if last.Num? && last.v != 0.0 then [last.v] else [])
  }

  lemma {:induction false} PresentMasked(col: seq<Cell>)
    ensures Present(MaskZeros(col)) == NonZeroAges(col)
  {
    if col != [] {
      var init := col[..|col| - 1];
      PresentMasked(init);
      assert MaskZeros(col)[..|col| - 1] == MaskZeros(init);
    }
  }

  /** The fill value as a cell: NaN when the median is NaN. */
  function FillCell(m: Option<real>): Cell
  {
    if m.Some? then Num(m.value) else Missing
  }

  /** Ages that were 0 or missing become the median of the non-zero present
      ages; every other age is kept. */
  lemma ImputeAgeCells(col: seq<Cell>)
    ensures forall i :: 0 <= i < |col| ==>
      ImputeAge(col)[i] == if col[i].Missing? || col[i] == Num(0.0) then FillCell(Stats.Median(NonZeroAges(col))) else col[i]
  {
    PresentMasked(col);
  }

  /** Missing values become the median of the column's present values; every
      other cell is kept. */
  lemma ImputeMedianCells(col: seq<Cell>)
    ensures forall i :: 0 <= i < |col| ==>
      ImputeMedian(col)[i] == if col[i].Missing? then FillCell(Stats.Median(Present(col))) else col[i]
  {
  }

  /** The shape of the cleaned batch: same rows, the index column gone, every
      other column in its place, and the columns cleaning does not touch
      unchanged. */
  lemma CleanedShape(df: Table)
    requires df.Valid()
    ensures Cleaned(df).Valid() && Cleaned(df).rows == df.rows
    ensures INDEX_COL !in Cleaned(df).cols
    ensures Cleaned(df).names == Keep(df.names, {INDEX_COL})
    ensures forall n :: n in df.cols && n != INDEX_COL && n != AGE && n != MONTHLY_INCOME && n != DEPENDENTS && n !in DELINQ_COLS ==>
      n in Cleaned(df).cols && Cleaned(df).cols[n] == df.cols[n]
  {
    KeepDistinct(df.names, {INDEX_COL});
  }

  /** Every delinquency count is at most 10 after cleaning, and counts that
      were at most 10 are kept. */
  lemma CleanedCapsDelinquency(df: Table, c: string)
    requires df.Valid() && c in DELINQ_COLS && c in df.cols
    ensures c in Cleaned(df).cols
    ensures forall i :: 0 <= i < |df.cols[c]| && Cleaned(df).cols[c][i].Num? ==> Cleaned(df).cols[c][i].v <= DELINQ_CAP
    ensures forall i :: 0 <= i < |df.cols[c]| && df.cols[c][i].Num? && df.cols[c][i].v <= DELINQ_CAP ==>
      Cleaned(df).cols[c][i] == df.cols[c][i]
  {
    assert c != AGE && c != MONTHLY_INCOME && c != DEPENDENTS && c != INDEX_COL;
  }

  lemma FillNaNothingMissing(col: seq<Cell>, fill: Option<real>)
    requires forall i :: 0 <= i < |col| ==> !col[i].Missing?
    ensures FillNa(col, fill) == col
  {
  }

  lemma MaskZerosNoZero(col: seq<Cell>)
    requires forall i :: 0 <= i < |col| ==> col[i] != Num(0.0)
    ensures MaskZeros(col) == col
  {
  }

  lemma FillNaNone(col: seq<Cell>)
    ensures FillNa(col, None) == col
  {
  }

  lemma FillNaComplete(col: seq<Cell>, v: real)
    ensures forall i :: 0 <= i < |col| ==> !FillNa(col, Some(v))[i].Missing?
  {
  }

  lemma MaskZerosNoZeroLeft(col: seq<Cell>)
    ensures forall i :: 0 <= i < |col| ==> MaskZeros(col)[i] != Num(0.0)
  {
  }

  /** Filling the gaps of a zero-free column with 0 and masking the zeros
      again gives the gaps back. */
  lemma MaskZerosUndoesZeroFill(col: seq<Cell>)
    requires forall i :: 0 <= i < |col| ==> col[i] != Num(0.0)
    ensures MaskZeros(FillNa(col, Some(0.0))) == col
  {
  }

  /** Imputing a second time finds no gap left, or (for an all-NaN column)
      again nothing to fill with. */
  lemma ImputeMedianIdempotent(col: seq<Cell>)
    ensures ImputeMedian(ImputeMedian(col)) == ImputeMedian(col)
  {
    var m := Stats.Median(Present(col));
    var r := ImputeMedian(col);
    if m.Some? {
      assert r == FillNa(col, Some(m.value));
      FillNaComplete(col, m.value);
      FillNaNothingMissing(r, Stats.Median(Present(r)));
    } else {
      FillNaNone(col);
    }
  }

  /** Age imputation is idempotent; the case where the median of the
      non-zero ages is itself 0 relies on masking undoing the fill. */
  lemma ImputeAgeIdempotent(col: seq<Cell>)
    ensures ImputeAge(ImputeAge(col)) == ImputeAge(col)
  {
    var masked := MaskZeros(col);
    var m := Stats.Median(Present(masked));
    if m.None? {
      ImputeAgeNoMedian(col);
    } else if m.value != 0.0 {
      ImputeAgeNonZeroMedian(col);
    } else {
      ImputeAgeZeroMedian(col);
    }
  }

  lemma ImputeAgeNoMedian(col: seq<Cell>)
    requires Stats.Median(Present(MaskZeros(col))).None?
    ensures ImputeAge(ImputeAge(col)) == ImputeAge(col)
  {
    var masked := MaskZeros(col);
    MaskZerosNoZeroLeft(col);
    FillNaNone(masked);
    MaskZerosNoZero(masked);
  }

  lemma ImputeAgeNonZeroMedian(col: seq<Cell>)
    requires Stats.Median(Present(MaskZeros(col))).Some?
    requires Stats.Median(Present(MaskZeros(col))).value != 0.0
    ensures ImputeAge(ImputeAge(col)) == ImputeAge(col)
  {
    var masked := MaskZeros(col);
    var v := Stats.Median(Present(masked)).value;
    var r := FillNa(masked, Some(v));
    MaskZerosNoZeroLeft(col);
    FillNaComplete(masked, v);
    assert forall i :: 0 <= i < |r| ==> r[i] != Num(0.0);
    MaskZerosNoZero(r);
    FillNaNothingMissing(r, Stats.Median(Present(r)));
  }

  lemma ImputeAgeZeroMedian(col: seq<Cell>)
    requires Stats.Median(Present(MaskZeros(col))) == Some(0.0)
    ensures ImputeAge(ImputeAge(col)) == ImputeAge(col)
  {
    MaskZerosNoZeroLeft(col);
    MaskZerosUndoesZeroFill(MaskZeros(col));
  }

  lemma ClipUpperIdempotent(col: seq<Cell>, hi: real)
    ensures ClipUpper(ClipUpper(col, hi), hi) == ClipUpper(col, hi)
  {
  }

  lemma CleanColumnIdempotent(n: string, col: seq<Cell>)
    ensures CleanColumn(n, CleanColumn(n, col)) == CleanColumn(n, col)
  {
    if n == AGE {
      ImputeAgeIdempotent(col);
    } else if n == MONTHLY_INCOME || n == DEPENDENTS {
      ImputeMedianIdempotent(col);
    } else if n in DELINQ_COLS {
      ClipUpperIdempotent(col, DELINQ_CAP);
    }
  }

  /** Cleaning an already cleaned batch changes nothing. */
  lemma CleanedTwiceColumn(df: Table, n: string)
    requires df.Valid() && n in Cleaned(df).cols
    ensures n in Cleaned(Cleaned(df)).cols && Cleaned(Cleaned(df)).cols[n] == Cleaned(df).cols[n]
  {
    CleanedColumn(df, n);
    CleanedColumn(Cleaned(df), n);
    CleanColumnIdempotent(n, df.cols[n]);
  }

  lemma CleanedIdempotent(df: Table)
    requires df.Valid()
    ensures Cleaned(Cleaned(df)) == Cleaned(df)
  {
    CleanedTwiceNames(df);
    CleanedTwiceCols(df);
  }

  lemma CleanedTwiceNames(df: Table)
    ensures Cleaned(Cleaned(df)).names == Cleaned(df).names
  {
    KeepKeep(df.names, {INDEX_COL}, {INDEX_COL});
    assert {INDEX_COL} + {INDEX_COL} == {INDEX_COL};
  }

  lemma CleanedTwiceCols(df: Table)
    requires df.Valid()
    ensures Cleaned(Cleaned(df)).cols == Cleaned(df).cols
  {
    var c := Cleaned(df);
    var cc := Cleaned(c);
    assert forall n :: n in c.cols ==> n in cc.cols && cc.cols[n] == c.cols[n] by {
      forall n | n in c.cols
        ensures n in cc.cols && cc.cols[n] == c.cols[n]
      {
        CleanedTwiceColumn(df, n);
      }
    }
    assert forall n :: n in cc.cols ==> n in c.cols by {
      forall n | n in cc.cols
        ensures n in c.cols
      {
        CleanedColumn(c, n);
      }
    }
    SameMaps(cc.cols, c.cols);
  }

  lemma CleanedColumn(df: Table, n: string)
    ensures n in Cleaned(df).cols <==> n in df.cols && n != INDEX_COL
    ensures n in Cleaned(df).cols ==> Cleaned(df).cols[n] == CleanColumn(n, df.cols[n])
  {
  }

  // ---------------------------------------------------------------------
  // Cell formulas of the feature stages
  // ---------------------------------------------------------------------

  /** `(series >= thr).astype(int)` against a batch statistic that may be
      NaN, in which case no row is flagged. */
  function QuantileFlagColumn(col: seq<Cell>, thr: Option<real>): (r: seq<Cell>)
    ensures |r| == |col|
    ensures forall i :: 0 <= i < |col| ==> r[i] == Num(1.0) || r[i] == Num(0.0)
    ensures forall i :: 0 <= i < |col| ==> (r[i] == Num(1.0) <==> thr.Some? && col[i].Num? && col[i].v >= thr.value)
  {
    if thr.None? then Const(|col|, Flag(false))
    else seq(|col|, i requires 0 <= i < |col| => Flag(col[i].Num? && col[i].v >= thr.value))
  }

  /** `df.get(name, 0)`: the column, or the scalar 0 broadcast to every row. */
  function GetOr(t: Table, name: string): (r: seq<Cell>)
    requires t.Valid()
    ensures |r| == t.rows
    ensures name !in t.cols ==> forall i :: 0 <= i < |r| ==> r[i] == Num(0.0)
  {
    if name in t.cols then t.cols[name] else Const(t.rows, Num(0.0))
  }

  /** One row of `c30 * 1 + c60 * 2 + c90 * 3`; NaN propagates. */
  function SeverityCell(c30: Cell, c60: Cell, c90: Cell): (r: Cell)
    ensures r.Num? <==> c30.Num? && c60.Num? && c90.Num?
  {
    if c30.Num? && c60.Num? && c90.Num? then Num(c30.v * 1.0 + c60.v * 2.0 + c90.v * 3.0) else Missing
  }

  function SeverityColumn(c30: seq<Cell>, c60: seq<Cell>, c90: seq<Cell>): (r: seq<Cell>)
    requires |c30| == |c60| == |c90|
    ensures |r| == |c30| && forall i :: 0 <= i < |c30| ==> r[i] == SeverityCell(c30[i], c60[i], c90[i])
  {
    seq(|c30|, i requires 0 <= i < |c30| => SeverityCell(c30[i], c60[i], c90[i]))
  }

  // Cut points (the last bin of every cut runs to +inf) and labels
  const AGE_EDGES: seq<real> := [0.0, 30.0, 45.0, 60.0]
  const AGE_LABELS: seq<string> := ["18-30", "31-45", "46-60", "60+"]
  const INCOME_EDGES: seq<real> := [0.0, 3000.0, 6000.0, 10000.0]
  const INCOME_LABELS: seq<string> := ["0-3k", "3-6k", "6-10k", "10k+"]
  const UTILIZATION_EDGES: seq<real> := [0.0, 0.3, 0.7, 1.0]
  const UTILIZATION_LABELS: seq<string> := ["0-30%", "30-70%", "70-100%", "100%+"]
  const DELINQ_EDGES: seq<real> := [0.0, 1.0, 2.0, 4.0]
  const DELINQ_LABELS: seq<string> := ["0", "1", "2-3", "4+"]

  // ---------------------------------------------------------------------
  // The column-writing steps the stages are made of; each writes one column
  // when the columns it reads are present and leaves the batch alone
  // otherwise.
  // ---------------------------------------------------------------------

  /** `if src in df.columns: df[out] = np.log1p(df[src])` */
  function Log1pFeature(t: Table, src: string, out: string): (r: Table)
    requires t.Valid()
    ensures r.Valid() && r.rows == t.rows
    ensures forall n :: n != out ==> (n in r.cols <==> n in t.cols) && (n in t.cols ==> r.cols[n] == t.cols[n])
  {
    if src in t.cols then t.With(out, Log1pColumn(t.cols[src])) else t
  }

  /** `if num and den in df.columns: df[out] = (df[num] / df[den].replace(0, np.nan)).fillna(0)` */
  function RatioFeature(t: Table, num: string, den: string, out: string): (r: Table)
    requires t.Valid()
    ensures r.Valid() && r.rows == t.rows
    ensures forall n :: n != out ==> (n in r.cols <==> n in t.cols) && (n in t.cols ==> r.cols[n] == t.cols[n])
  {
    if num in t.cols && den in t.cols then t.With(out, SafeRatioColumn(t.cols[num], t.cols[den])) else t
  }

  /** `if a and b in df.columns: df[out] = df[a] * df[b]` */
  function ProductFeature(t: Table, a: string, b: string, out: string): (r: Table)
    requires t.Valid()
    ensures r.Valid() && r.rows == t.rows
    ensures forall n :: n != out ==> (n in r.cols <==> n in t.cols) && (n in t.cols ==> r.cols[n] == t.cols[n])
  {
    if a in t.cols && b in t.cols then t.With(out, ProductColumn(t.cols[a], t.cols[b])) else t
  }

  /** `if src in df.columns: df[out] = pd.cut(df[src], bins, labels, right)` */
  function BinFeature(t: Table, src: string, out: string, edges: seq<real>, labels: seq<string>, rightClosed: bool): (r: Table)
    requires t.Valid() && |labels| == |edges|
    ensures r.Valid() && r.rows == t.rows
    ensures forall n :: n != out ==> (n in r.cols <==> n in t.cols) && (n in t.cols ==> r.cols[n] == t.cols[n])
  {
    if src in t.cols then t.With(out, Binning.Cut(t.cols[src], edges, labels, rightClosed)) else t
  }

  /** The column-writing steps applied to the frame in place. */
  method AssignLog1p(f: Frame, src: string, out: string)
    requires f.Value().Valid()
    modifies f
    ensures f.Value() == Log1pFeature(old(f.Value()), src, out)
  {
    if src in f.cols {
      f.Assign(out, Log1pColumn(f.cols[src]));
    }
  }

  method AssignRatio(f: Frame, num: string, den: string, out: string)
    requires f.Value().Valid()
    modifies f
    ensures f.Value() == RatioFeature(old(f.Value()), num, den, out)
  {
    if num in f.cols && den in f.cols {
      f.Assign(out, SafeRatioColumn(f.cols[num], f.cols[den]));
    }
  }

  method AssignProduct(f: Frame, a: string, b: string, out: string)
    requires f.Value().Valid()
    modifies f
    ensures f.Value() == ProductFeature(old(f.Value()), a, b, out)
  {
    if a in f.cols && b in f.cols {
      f.Assign(out, ProductColumn(f.cols[a], f.cols[b]));
    }
  }

  method AssignBin(f: Frame, src: string, out: string, edges: seq<real>, labels: seq<string>, rightClosed: bool)
    requires f.Value().Valid() && |labels| == |edges|
    modifies f
    ensures f.Value() == BinFeature(old(f.Value()), src, out, edges, labels, rightClosed)
  {
    if src in f.cols {
      f.Assign(out, Binning.Cut(f.cols[src], edges, labels, rightClosed));
    }
  }

  // ---------------------------------------------------------------------
  // 2) add_core_numeric_features
  // ---------------------------------------------------------------------

  function CoreNumericFeatures(t: Table): (r: Table)
    requires t.Valid()
    ensures r.Valid() && r.rows == t.rows
  {
    var t1 := Log1pFeature(t, UTILIZATION, UTILIZATION_LOG1P);
    var t2 := Log1pFeature(t1, DEBT_RATIO, DEBT_RATIO_LOG1P);
    var t3 := Log1pFeature(t2, MONTHLY_INCOME, INCOME_LOG1P);
    var t4 := RatioFeature(t3, DEBT_RATIO, MONTHLY_INCOME, DEBT_TO_INCOME);
    if UTILIZATION in t4.cols then t4.With(HIGH_UTILIZATION_FLAG, AtLeastColumn(t4.cols[UTILIZATION], 1.0)) else t4
  }

  method AddCoreNumericFeatures(df: Table) returns (out: Table)
    requires df.Valid()
    ensures out == CoreNumericFeatures(df)
  {
    var f := new Frame.Copy(df);
    AssignLog1p(f, UTILIZATION, UTILIZATION_LOG1P);
    AssignLog1p(f, DEBT_RATIO, DEBT_RATIO_LOG1P);
    AssignLog1p(f, MONTHLY_INCOME, INCOME_LOG1P);
    AssignRatio(f, DEBT_RATIO, MONTHLY_INCOME, DEBT_TO_INCOME);
    if UTILIZATION in f.cols {
      f.Assign(HIGH_UTILIZATION_FLAG, AtLeastColumn(f.cols[UTILIZATION], 1.0));
    }
    out := f.Value();
  }


  // ---------------------------------------------------------------------
  // 3) add_delinquency_features
  // ---------------------------------------------------------------------

  predicate HasDelinquencyCounts(t: Table)
  {
    PAST_DUE_30_59 in t.cols && PAST_DUE_60_89 in t.cols && LATE_90 in t.cols
  }

  /** `TotalDelinquency`: the row sum of the three counts when all exist,
      the scalar 0 otherwise. */
  function TotalColumn(t: Table): (r: seq<Cell>)
    requires t.Valid()
    ensures |r| == t.rows
  {
    if HasDelinquencyCounts(t)
    then SumColumn(t.cols[PAST_DUE_30_59], t.cols[PAST_DUE_60_89], t.cols[LATE_90])
    else Const(t.rows, Num(0.0))
  }

  /** The total and the three flags, written before the severity score. */
  function DelinquencyFlagStage(t: Table): (r: Table)
    requires t.Valid()
    ensures r.Valid() && r.rows == t.rows
  {
    var t1 := t.With(TOTAL_DELINQUENCY, TotalColumn(t));
    var t2 := t1.With(EVER_DELINQUENT, AboveColumn(t1.cols[TOTAL_DELINQUENCY], 0.0));
    var t3 := if LATE_90 in t2.cols
      then t2.With(EVER_90_DAYS_LATE, AboveColumn(t2.cols[LATE_90], 0.0))
      else t2.With(EVER_90_DAYS_LATE, Const(t2.rows, Num(0.0)));
    t3.With(MULTIPLE_DELINQUENCY, AtLeastColumn(t3.cols[TOTAL_DELINQUENCY], 2.0))
  }

  function DelinquencyFeatures(t: Table): (r: Table)
    requires t.Valid()
    ensures r.Valid() && r.rows == t.rows
    ensures DELINQUENCY_OUTPUTS <= r.cols.Keys
  {
    var t4 := DelinquencyFlagStage(t);
    t4.With(SEVERITY_SCORE, SeverityColumn(GetOr(t4, PAST_DUE_30_59), GetOr(t4, PAST_DUE_60_89), GetOr(t4, LATE_90)))
  }

  method AddDelinquencyFeatures(df: Table) returns (out: Table)
    requires df.Valid()
    ensures out == DelinquencyFeatures(df)
  {
    var f := new Frame.Copy(df);
    if PAST_DUE_30_59 in f.cols && PAST_DUE_60_89 in f.cols && LATE_90 in f.cols {
      f.Assign(TOTAL_DELINQUENCY, SumColumn(f.cols[PAST_DUE_30_59], f.cols[PAST_DUE_60_89], f.cols[LATE_90]));
    } else {
      f.Assign(TOTAL_DELINQUENCY, Const(f.rows, Num(0.0)));
    }
    f.Assign(EVER_DELINQUENT, AboveColumn(f.cols[TOTAL_DELINQUENCY], 0.0));
    if LATE_90 in f.cols {
      f.Assign(EVER_90_DAYS_LATE, AboveColumn(f.cols[LATE_90], 0.0));
    } else {
      f.Assign(EVER_90_DAYS_LATE, Const(f.rows, Num(0.0)));
    }
    f.Assign(MULTIPLE_DELINQUENCY, AtLeastColumn(f.cols[TOTAL_DELINQUENCY], 2.0));
    assert f.Value() == DelinquencyFlagStage(df);
    f.Assign(SEVERITY_SCORE, SeverityColumn(GetOr(f.Value(), PAST_DUE_30_59), GetOr(f.Value(), PAST_DUE_60_89), GetOr(f.Value(), LATE_90)));
    out := f.Value();
  }

  // ---------------------------------------------------------------------
  // 4) add_risk_flags
  // ---------------------------------------------------------------------

  function RiskFlags(t: Table): (r: Table)
    requires t.Valid()
    ensures r.Valid() && r.rows == t.rows
  {
    if DEBT_TO_INCOME in t.cols then
      var ratio := t.cols[DEBT_TO_INCOME];
      t.With(HIGH_DEBT_FLAG, QuantileFlagColumn(ratio, Stats.Quantile(Present(ratio), HIGH_DEBT_QUANTILE)))
    else t.With(HIGH_DEBT_FLAG, Const(t.rows, Num(0.0)))
  }

  method AddRiskFlags(df: Table) returns (out: Table)
    requires df.Valid()
    ensures out == RiskFlags(df)
  {
    var f := new Frame.Copy(df);
    if DEBT_TO_INCOME in f.cols {
      var thr := Stats.Quantile(Present(f.cols[DEBT_TO_INCOME]), HIGH_DEBT_QUANTILE);
      f.Assign(HIGH_DEBT_FLAG, QuantileFlagColumn(f.cols[DEBT_TO_INCOME], thr));
    } else {
      f.Assign(HIGH_DEBT_FLAG, Const(f.rows, Num(0.0)));
    }
    out := f.Value();
  }

  // ---------------------------------------------------------------------
  // 5) add_binning_features
  // ---------------------------------------------------------------------

  function BinningFeatures(t: Table): (r: Table)
    requires t.Valid()
    ensures r.Valid() && r.rows == t.rows
  {
    var t1 := BinFeature(t, AGE, AGE_BIN, AGE_EDGES, AGE_LABELS, true);
    var t2 := BinFeature(t1, MONTHLY_INCOME, INCOME_BIN, INCOME_EDGES, INCOME_LABELS, true);
    var t3 := BinFeature(t2, UTILIZATION, UTILIZATION_BIN, UTILIZATION_EDGES, UTILIZATION_LABELS, true);
    BinFeature(t3, TOTAL_DELINQUENCY, DELINQ_BIN, DELINQ_EDGES, DELINQ_LABELS, false)
  }

  method AddBinningFeatures(df: Table) returns (out: Table)
    requires df.Valid()
    ensures out == BinningFeatures(df)
  {
    var f := new Frame.Copy(df);
    AssignBin(f, AGE, AGE_BIN, AGE_EDGES, AGE_LABELS, true);
    AssignBin(f, MONTHLY_INCOME, INCOME_BIN, INCOME_EDGES, INCOME_LABELS, true);
    AssignBin(f, UTILIZATION, UTILIZATION_BIN, UTILIZATION_EDGES, UTILIZATION_LABELS, true);
    AssignBin(f, TOTAL_DELINQUENCY, DELINQ_BIN, DELINQ_EDGES, DELINQ_LABELS, false);
    out := f.Value();
  }


  // ---------------------------------------------------------------------
  // 6) add_interaction_features
  // ---------------------------------------------------------------------

  function InteractionFeatures(t: Table): (r: Table)
    requires t.Valid()
    ensures r.Valid() && r.rows == t.rows
  {
    var t1 := ProductFeature(t, UTILIZATION, DEBT_RATIO, UTILIZATION_X_DEBT);
    var t2 := ProductFeature(t1, MONTHLY_INCOME, AGE, INCOME_X_AGE);
    var t3 := ProductFeature(t2, TOTAL_DELINQUENCY, UTILIZATION, DELINQ_X_UTILIZATION);
    var t4 := ProductFeature(t3, OPEN_CREDIT_LINES, REAL_ESTATE_LOANS, OPEN_LINES_X_REAL_ESTATE);
    ProductFeature(t4, HIGH_UTILIZATION_FLAG, DEBT_RATIO, HIGH_UTIL_X_DEBT)
  }

  method AddInteractionFeatures(df: Table) returns (out: Table)
    requires df.Valid()
    ensures out == InteractionFeatures(df)
  {
    var f := new Frame.Copy(df);
    AssignProduct(f, UTILIZATION, DEBT_RATIO, UTILIZATION_X_DEBT);
    AssignProduct(f, MONTHLY_INCOME, AGE, INCOME_X_AGE);
    AssignProduct(f, TOTAL_DELINQUENCY, UTILIZATION, DELINQ_X_UTILIZATION);
    AssignProduct(f, OPEN_CREDIT_LINES, REAL_ESTATE_LOANS, OPEN_LINES_X_REAL_ESTATE);
    AssignProduct(f, HIGH_UTILIZATION_FLAG, DEBT_RATIO, HIGH_UTIL_X_DEBT);
    out := f.Value();
  }


  // ---------------------------------------------------------------------
  // 7) add_domain_features
  // ---------------------------------------------------------------------

  function DomainFeatures(t: Table): (r: Table)
    requires t.Valid()
    ensures r.Valid() && r.rows == t.rows
  {
    var t1 := ProductFeature(t, DEBT_RATIO, MONTHLY_INCOME, EFFECTIVE_DEBT_LOAD);
    var t2 := RatioFeature(t1, OPEN_CREDIT_LINES, AGE, CREDIT_LINE_DENSITY);
    var t3 := ProductFeature(t2, REAL_ESTATE_LOANS, DEBT_RATIO, REAL_ESTATE_EXPOSURE);
    if DEBT_RATIO in t3.cols && UTILIZATION in t3.cols
    then t3.With(FINANCIAL_STRESS, Log1pColumn(ProductColumn(t3.cols[DEBT_RATIO], t3.cols[UTILIZATION])))
    else t3
  }

  method AddDomainFeatures(df: Table) returns (out: Table)
    requires df.Valid()
    ensures out == DomainFeatures(df)
  {
    var f := new Frame.Copy(df);
    AssignProduct(f, DEBT_RATIO, MONTHLY_INCOME, EFFECTIVE_DEBT_LOAD);
    AssignRatio(f, OPEN_CREDIT_LINES, AGE, CREDIT_LINE_DENSITY);
    AssignProduct(f, REAL_ESTATE_LOANS, DEBT_RATIO, REAL_ESTATE_EXPOSURE);
    if DEBT_RATIO in f.cols && UTILIZATION in f.cols {
      f.Assign(FINANCIAL_STRESS, Log1pColumn(ProductColumn(f.cols[DEBT_RATIO], f.cols[UTILIZATION])));
    }
    out := f.Value();
  }


  // ---------------------------------------------------------------------
  // 8) apply_feature_selection and 9) prepare_training
  // ---------------------------------------------------------------------

  /** The columns of the batch not on the drop list, in their order. */
  function FeatureSelection(t: Table): (r: Table)
    ensures r.rows == t.rows
    ensures r.names == Keep(t.names, set c | c in FINAL_DROP_COLS)
    ensures forall n :: n in r.cols <==> n in t.cols && n !in FINAL_DROP_COLS
    ensures forall n :: n in r.cols ==> r.cols[n] == t.cols[n]
    ensures t.Valid() ==> r.Valid()
  {
    var drop := set c | c in FINAL_DROP_COLS;
    KeepDistinctIf(t.names, drop);
    Table(Keep(t.names, drop), map n | n in t.cols && n !in drop :: t.cols[n], t.rows)
  }

  /** The whole preparation: cleaning, the six feature stages, selection. */
  function PrepareTraining(t: Table): (r: Table)
    requires t.Valid()
    ensures r.Valid() && r.rows == t.rows
  {
    var cleaned := Cleaned(t);
    var features := DomainFeatures(InteractionFeatures(BinningFeatures(RiskFlags(
      DelinquencyFeatures(CoreNumericFeatures(cleaned))))));
    FeatureSelection(features)
  }

  /** prepare_training: the stages one after another on the working frame. */
  method PrepareTrainingSteps(df: Table) returns (out: Table)
    requires df.Valid()
    ensures out == PrepareTraining(df)
    ensures out.Valid() && out.rows == df.rows
    ensures forall n :: n in out.cols ==> n !in FINAL_DROP_COLS && n != INDEX_COL
  {
    out := CleanBasic(df);
    out := AddCoreNumericFeatures(out);
    out := AddDelinquencyFeatures(out);
    out := AddRiskFlags(out);
    out := AddBinningFeatures(out);
    out := AddInteractionFeatures(out);
    out := AddDomainFeatures(out);
    out := FeatureSelection(out);
    PreparedHasNoIndex(df);
  }

  /** The index column never comes back once cleaning has dropped it. */
  lemma PreparedHasNoIndex(df: Table)
    requires df.Valid()
    ensures INDEX_COL !in PrepareTraining(df).cols
  {
    var t0 := Cleaned(df);
    var t1 := CoreNumericFeatures(t0);
    var t2 := DelinquencyFeatures(t1);
    var t3 := RiskFlags(t2);
    var t4 := BinningFeatures(t3);
    var t5 := InteractionFeatures(t4);
    IndexNotWritten();
    CoreNumericExtends(t0);
    ExtendsAbsent(t0, t1, CORE_NUMERIC_OUTPUTS, INDEX_COL);
    DelinquencyExtends(t1);
    ExtendsAbsent(t1, t2, DELINQUENCY_OUTPUTS, INDEX_COL);
    RiskFlagsExtends(t2);
    ExtendsAbsent(t2, t3, RISK_FLAG_OUTPUTS, INDEX_COL);
    BinningExtends(t3);
    ExtendsAbsent(t3, t4, BINNING_OUTPUTS, INDEX_COL);
    InteractionExtends(t4);
    ExtendsAbsent(t4, t5, INTERACTION_OUTPUTS, INDEX_COL);
    DomainExtends(t5);
    ExtendsAbsent(t5, DomainFeatures(t5), DOMAIN_OUTPUTS, INDEX_COL);
  }

  /** No feature stage writes a column called like the index column. */
  lemma IndexNotWritten()
    ensures INDEX_COL !in CORE_NUMERIC_OUTPUTS && INDEX_COL !in DELINQUENCY_OUTPUTS
    ensures INDEX_COL !in RISK_FLAG_OUTPUTS && INDEX_COL !in BINNING_OUTPUTS
    ensures INDEX_COL !in INTERACTION_OUTPUTS && INDEX_COL !in DOMAIN_OUTPUTS
  {
  }

  lemma ExtendsAbsent(t: Table, r: Table, written: set<string>, c: string)
    requires Extends(t, r, written) && c !in t.cols && c !in written
    ensures c !in r.cols
  {
  }

  // ---------------------------------------------------------------------
  // Every feature stage only adds or overwrites its own columns
  // ---------------------------------------------------------------------

  const CORE_NUMERIC_OUTPUTS: set<string> :=
    {UTILIZATION_LOG1P, DEBT_RATIO_LOG1P, INCOME_LOG1P, DEBT_TO_INCOME, HIGH_UTILIZATION_FLAG}
  const DELINQUENCY_OUTPUTS: set<string> :=
    {TOTAL_DELINQUENCY, EVER_DELINQUENT, EVER_90_DAYS_LATE, MULTIPLE_DELINQUENCY, SEVERITY_SCORE}
  const RISK_FLAG_OUTPUTS: set<string> := {HIGH_DEBT_FLAG}
  const BINNING_OUTPUTS: set<string> := {AGE_BIN, INCOME_BIN, UTILIZATION_BIN, DELINQ_BIN}
  const INTERACTION_OUTPUTS: set<string> :=
    {UTILIZATION_X_DEBT, INCOME_X_AGE, DELINQ_X_UTILIZATION, OPEN_LINES_X_REAL_ESTATE, HIGH_UTIL_X_DEBT}
  const DOMAIN_OUTPUTS: set<string> :=
    {EFFECTIVE_DEBT_LOAD, CREDIT_LINE_DENSITY, REAL_ESTATE_EXPOSURE, FINANCIAL_STRESS}

  lemma Log1pFeatureExtends(t: Table, u: Table, src: string, out: string, w: set<string>)
    requires u.Valid() && Extends(t, u, w) && out in w
    ensures Extends(t, Log1pFeature(u, src, out), w)
  {
    if src in u.cols { ExtendsWith(t, u, out, Log1pColumn(u.cols[src]), w); }
  }

  lemma RatioFeatureExtends(t: Table, u: Table, num: string, den: string, out: string, w: set<string>)
    requires u.Valid() && Extends(t, u, w) && out in w
    ensures Extends(t, RatioFeature(u, num, den, out), w)
  {
    if num in u.cols && den in u.cols { ExtendsWith(t, u, out, SafeRatioColumn(u.cols[num], u.cols[den]), w); }
  }

  lemma ProductFeatureExtends(t: Table, u: Table, a: string, b: string, out: string, w: set<string>)
    requires u.Valid() && Extends(t, u, w) && out in w
    ensures Extends(t, ProductFeature(u, a, b, out), w)
  {
    if a in u.cols && b in u.cols { ExtendsWith(t, u, out, ProductColumn(u.cols[a], u.cols[b]), w); }
  }

  lemma BinFeatureExtends(t: Table, u: Table, src: string, out: string, edges: seq<real>, labels: seq<string>, rightClosed: bool, w: set<string>)
    requires u.Valid() && |labels| == |edges| && Extends(t, u, w) && out in w
    ensures Extends(t, BinFeature(u, src, out, edges, labels, rightClosed), w)
  {
    if src in u.cols { ExtendsWith(t, u, out, Binning.Cut(u.cols[src], edges, labels, rightClosed), w); }
  }

  lemma CoreNumericExtends(t: Table)
    requires t.Valid()
    ensures Extends(t, CoreNumericFeatures(t), CORE_NUMERIC_OUTPUTS)
  {
    var w := CORE_NUMERIC_OUTPUTS;
    var t1 := Log1pFeature(t, UTILIZATION, UTILIZATION_LOG1P);
    var t2 := Log1pFeature(t1, DEBT_RATIO, DEBT_RATIO_LOG1P);
    var t3 := Log1pFeature(t2, MONTHLY_INCOME, INCOME_LOG1P);
    var t4 := RatioFeature(t3, DEBT_RATIO, MONTHLY_INCOME, DEBT_TO_INCOME);
    ExtendsRefl(t, w);
    Log1pFeatureExtends(t, t, UTILIZATION, UTILIZATION_LOG1P, w);
    Log1pFeatureExtends(t, t1, DEBT_RATIO, DEBT_RATIO_LOG1P, w);
    Log1pFeatureExtends(t, t2, MONTHLY_INCOME, INCOME_LOG1P, w);
    RatioFeatureExtends(t, t3, DEBT_RATIO, MONTHLY_INCOME, DEBT_TO_INCOME, w);
    if UTILIZATION in t4.cols { ExtendsWith(t, t4, HIGH_UTILIZATION_FLAG, AtLeastColumn(t4.cols[UTILIZATION], 1.0), w); }
  }

  lemma DelinquencyExtends(t: Table)
    requires t.Valid()
    ensures Extends(t, DelinquencyFeatures(t), DELINQUENCY_OUTPUTS)
  {
    var w := DELINQUENCY_OUTPUTS;
    var total := TotalColumn(t);
    var t1 := t.With(TOTAL_DELINQUENCY, total);
    var t2 := t1.With(EVER_DELINQUENT, AboveColumn(t1.cols[TOTAL_DELINQUENCY], 0.0));
    var late := if LATE_90 in t2.cols then AboveColumn(t2.cols[LATE_90], 0.0) else Const(t2.rows, Num(0.0));
    var t3 := t2.With(EVER_90_DAYS_LATE, late);
    var t4 := t3.With(MULTIPLE_DELINQUENCY, AtLeastColumn(t3.cols[TOTAL_DELINQUENCY], 2.0));
    ExtendsRefl(t, w);
    ExtendsWith(t, t, TOTAL_DELINQUENCY, total, w);
    ExtendsWith(t, t1, EVER_DELINQUENT, AboveColumn(t1.cols[TOTAL_DELINQUENCY], 0.0), w);
    ExtendsWith(t, t2, EVER_90_DAYS_LATE, late, w);
    ExtendsWith(t, t3, MULTIPLE_DELINQUENCY, AtLeastColumn(t3.cols[TOTAL_DELINQUENCY], 2.0), w);
    assert t4 == DelinquencyFlagStage(t);
    ExtendsWith(t, t4, SEVERITY_SCORE,
      SeverityColumn(GetOr(t4, PAST_DUE_30_59), GetOr(t4, PAST_DUE_60_89), GetOr(t4, LATE_90)), w);
  }

  lemma RiskFlagsExtends(t: Table)
    requires t.Valid()
    ensures Extends(t, RiskFlags(t), RISK_FLAG_OUTPUTS)
  {
    if DEBT_TO_INCOME in t.cols {
      var ratio := t.cols[DEBT_TO_INCOME];
      WithExtends(t, HIGH_DEBT_FLAG, QuantileFlagColumn(ratio, Stats.Quantile(Present(ratio), HIGH_DEBT_QUANTILE)), RISK_FLAG_OUTPUTS);
    } else {
      WithExtends(t, HIGH_DEBT_FLAG, Const(t.rows, Num(0.0)), RISK_FLAG_OUTPUTS);
    }
  }

  lemma BinningExtends(t: Table)
    requires t.Valid()
    ensures Extends(t, BinningFeatures(t), BINNING_OUTPUTS)
  {
    var w := BINNING_OUTPUTS;
    var t1 := BinFeature(t, AGE, AGE_BIN, AGE_EDGES, AGE_LABELS, true);
    var t2 := BinFeature(t1, MONTHLY_INCOME, INCOME_BIN, INCOME_EDGES, INCOME_LABELS, true);
    var t3 := BinFeature(t2, UTILIZATION, UTILIZATION_BIN, UTILIZATION_EDGES, UTILIZATION_LABELS, true);
    ExtendsRefl(t, w);
    BinFeatureExtends(t, t, AGE, AGE_BIN, AGE_EDGES, AGE_LABELS, true, w);
    BinFeatureExtends(t, t1, MONTHLY_INCOME, INCOME_BIN, INCOME_EDGES, INCOME_LABELS, true, w);
    BinFeatureExtends(t, t2, UTILIZATION, UTILIZATION_BIN, UTILIZATION_EDGES, UTILIZATION_LABELS, true, w);
    BinFeatureExtends(t, t3, TOTAL_DELINQUENCY, DELINQ_BIN, DELINQ_EDGES, DELINQ_LABELS, false, w);
  }

  lemma InteractionExtends(t: Table)
    requires t.Valid()
    ensures Extends(t, InteractionFeatures(t), INTERACTION_OUTPUTS)
  {
    var w := INTERACTION_OUTPUTS;
    var t1 := ProductFeature(t, UTILIZATION, DEBT_RATIO, UTILIZATION_X_DEBT);
    var t2 := ProductFeature(t1, MONTHLY_INCOME, AGE, INCOME_X_AGE);
    var t3 := ProductFeature(t2, TOTAL_DELINQUENCY, UTILIZATION, DELINQ_X_UTILIZATION);
    var t4 := ProductFeature(t3, OPEN_CREDIT_LINES, REAL_ESTATE_LOANS, OPEN_LINES_X_REAL_ESTATE);
    ExtendsRefl(t, w);
    ProductFeatureExtends(t, t, UTILIZATION, DEBT_RATIO, UTILIZATION_X_DEBT, w);
    ProductFeatureExtends(t, t1, MONTHLY_INCOME, AGE, INCOME_X_AGE, w);
    ProductFeatureExtends(t, t2, TOTAL_DELINQUENCY, UTILIZATION, DELINQ_X_UTILIZATION, w);
    ProductFeatureExtends(t, t3, OPEN_CREDIT_LINES, REAL_ESTATE_LOANS, OPEN_LINES_X_REAL_ESTATE, w);
    ProductFeatureExtends(t, t4, HIGH_UTILIZATION_FLAG, DEBT_RATIO, HIGH_UTIL_X_DEBT, w);
  }

  lemma DomainExtends(t: Table)
    requires t.Valid()
    ensures Extends(t, DomainFeatures(t), DOMAIN_OUTPUTS)
  {
    var w := DOMAIN_OUTPUTS;
    var t1 := ProductFeature(t, DEBT_RATIO, MONTHLY_INCOME, EFFECTIVE_DEBT_LOAD);
    var t2 := RatioFeature(t1, OPEN_CREDIT_LINES, AGE, CREDIT_LINE_DENSITY);
    var t3 := ProductFeature(t2, REAL_ESTATE_LOANS, DEBT_RATIO, REAL_ESTATE_EXPOSURE);
    ExtendsRefl(t, w);
    ProductFeatureExtends(t, t, DEBT_RATIO, MONTHLY_INCOME, EFFECTIVE_DEBT_LOAD, w);
    RatioFeatureExtends(t, t1, OPEN_CREDIT_LINES, AGE, CREDIT_LINE_DENSITY, w);
    ProductFeatureExtends(t, t2, REAL_ESTATE_LOANS, DEBT_RATIO, REAL_ESTATE_EXPOSURE, w);
    if DEBT_RATIO in t3.cols && UTILIZATION in t3.cols {
      ExtendsWith(t, t3, FINANCIAL_STRESS, Log1pColumn(ProductColumn(t3.cols[DEBT_RATIO], t3.cols[UTILIZATION])), w);
    }
  }

  // ---------------------------------------------------------------------
  // Properties of the feature stages
  // ---------------------------------------------------------------------

  /** The debt-to-income ratio times the income gives back the debt ratio
      wherever income is present and not zero; everywhere else the ratio
      is 0. */
  lemma DebtToIncomeRatio(t: Table, i: nat)
    requires t.Valid() && DEBT_RATIO in t.cols && MONTHLY_INCOME in t.cols && i < t.rows
    ensures DEBT_TO_INCOME in CoreNumericFeatures(t).cols
    ensures var d := t.cols[DEBT_RATIO][i];
            var inc := t.cols[MONTHLY_INCOME][i];
            var ratio := CoreNumericFeatures(t).cols[DEBT_TO_INCOME][i];
            && ratio.Num?
            && (d.Num? && inc.Num? && inc.v != 0.0 ==> Undoes(ratio, inc, d))
            && (!(d.Num? && inc.Num? && inc.v != 0.0) ==> ratio.v == 0.0)
  {
    DebtToIncomeColumn(t);
    var d := t.cols[DEBT_RATIO][i];
    var inc := t.cols[MONTHLY_INCOME][i];
    var ratio := CoreNumericFeatures(t).cols[DEBT_TO_INCOME][i];
    assert ratio == SafeRatio(d, inc);
  }

  /** Where add_core_numeric_features puts the ratio. */
  lemma DebtToIncomeColumn(t: Table)
    requires t.Valid() && DEBT_RATIO in t.cols && MONTHLY_INCOME in t.cols
    ensures DEBT_TO_INCOME in CoreNumericFeatures(t).cols
    ensures CoreNumericFeatures(t).cols[DEBT_TO_INCOME] == SafeRatioColumn(t.cols[DEBT_RATIO], t.cols[MONTHLY_INCOME])
  {
    var t1 := Log1pFeature(t, UTILIZATION, UTILIZATION_LOG1P);
    var t2 := Log1pFeature(t1, DEBT_RATIO, DEBT_RATIO_LOG1P);
    var t3 := Log1pFeature(t2, MONTHLY_INCOME, INCOME_LOG1P);
    assert t3.cols[DEBT_RATIO] == t.cols[DEBT_RATIO] && t3.cols[MONTHLY_INCOME] == t.cols[MONTHLY_INCOME];
  }

  /** Where add_core_numeric_features puts the utilisation flag. */
  lemma HighUtilizationColumn(t: Table)
    requires t.Valid() && UTILIZATION in t.cols
    ensures HIGH_UTILIZATION_FLAG in CoreNumericFeatures(t).cols
    ensures CoreNumericFeatures(t).cols[HIGH_UTILIZATION_FLAG] == AtLeastColumn(t.cols[UTILIZATION], 1.0)
  {
    var t1 := Log1pFeature(t, UTILIZATION, UTILIZATION_LOG1P);
    var t2 := Log1pFeature(t1, DEBT_RATIO, DEBT_RATIO_LOG1P);
    var t3 := Log1pFeature(t2, MONTHLY_INCOME, INCOME_LOG1P);
    var t4 := RatioFeature(t3, DEBT_RATIO, MONTHLY_INCOME, DEBT_TO_INCOME);
    assert t4.cols[UTILIZATION] == t.cols[UTILIZATION];
  }

  /** HighUtilizationFlag is 1 exactly when the utilisation is at least 1.0. */
  lemma HighUtilizationFlagIff(t: Table, i: nat)
    requires t.Valid() && UTILIZATION in t.cols && i < t.rows
    ensures HIGH_UTILIZATION_FLAG in CoreNumericFeatures(t).cols
    ensures var flag := CoreNumericFeatures(t).cols[HIGH_UTILIZATION_FLAG][i];
            var u := t.cols[UTILIZATION][i];
            && (flag == Num(1.0) || flag == Num(0.0))
            && (flag == Num(1.0) <==> u.Num? && u.v >= 1.0)
  {
    HighUtilizationColumn(t);
  }

  /** Where the first four writes of add_delinquency_features go; the
      counts they read stay as they were. */
  lemma DelinquencyFlagColumns(t: Table)
    requires t.Valid()
    ensures var r := DelinquencyFlagStage(t);
            && TOTAL_DELINQUENCY in r.cols && EVER_DELINQUENT in r.cols
            && EVER_90_DAYS_LATE in r.cols && MULTIPLE_DELINQUENCY in r.cols
            && r.cols[TOTAL_DELINQUENCY] == TotalColumn(t)
            && r.cols[EVER_DELINQUENT] == AboveColumn(TotalColumn(t), 0.0)
            && r.cols[EVER_90_DAYS_LATE] == (if LATE_90 in t.cols then AboveColumn(t.cols[LATE_90], 0.0) else Const(t.rows, Num(0.0)))
            && r.cols[MULTIPLE_DELINQUENCY] == AtLeastColumn(TotalColumn(t), 2.0)
  {
    var t1 := t.With(TOTAL_DELINQUENCY, TotalColumn(t));
    var t2 := t1.With(EVER_DELINQUENT, AboveColumn(t1.cols[TOTAL_DELINQUENCY], 0.0));
    assert LATE_90 in t.cols ==> t2.cols[LATE_90] == t.cols[LATE_90];
  }

  /** The flag writes leave the counts the severity score reads alone. */
  lemma DelinquencyCountsKept(t: Table)
    requires t.Valid()
    ensures var r := DelinquencyFlagStage(t);
            && GetOr(r, PAST_DUE_30_59) == GetOr(t, PAST_DUE_30_59)
            && GetOr(r, PAST_DUE_60_89) == GetOr(t, PAST_DUE_60_89)
            && GetOr(r, LATE_90) == GetOr(t, LATE_90)
  {
    var t1 := t.With(TOTAL_DELINQUENCY, TotalColumn(t));
    var t2 := t1.With(EVER_DELINQUENT, AboveColumn(t1.cols[TOTAL_DELINQUENCY], 0.0));
    var late := if LATE_90 in t2.cols then AboveColumn(t2.cols[LATE_90], 0.0) else Const(t2.rows, Num(0.0));
    var t3 := t2.With(EVER_90_DAYS_LATE, late);
    var t4 := t3.With(MULTIPLE_DELINQUENCY, AtLeastColumn(t3.cols[TOTAL_DELINQUENCY], 2.0));
    assert t4 == DelinquencyFlagStage(t);
    forall c | c in DELINQ_COLS
      ensures GetOr(t4, c) == GetOr(t, c)
    {
      GetOrWith(t, TOTAL_DELINQUENCY, TotalColumn(t), c);
      GetOrWith(t1, EVER_DELINQUENT, AboveColumn(t1.cols[TOTAL_DELINQUENCY], 0.0), c);
      GetOrWith(t2, EVER_90_DAYS_LATE, late, c);
      GetOrWith(t3, MULTIPLE_DELINQUENCY, AtLeastColumn(t3.cols[TOTAL_DELINQUENCY], 2.0), c);
    }
    assert PAST_DUE_30_59 in DELINQ_COLS && PAST_DUE_60_89 in DELINQ_COLS && LATE_90 in DELINQ_COLS;
  }

  /** Writing one column leaves what `df.get` returns for another alone. */
  lemma GetOrWith(t: Table, n: string, col: seq<Cell>, c: string)
    requires t.Valid() && |col| == t.rows && c in DELINQ_COLS && n in DELINQUENCY_OUTPUTS
    ensures t.With(n, col).Valid()
    ensures GetOr(t.With(n, col), c) == GetOr(t, c)
  {
    assert c != n;
  }

  /** Where add_delinquency_features puts what it computes. */
  lemma DelinquencyColumns(t: Table)
    requires t.Valid()
    ensures var r := DelinquencyFeatures(t);
            && DELINQUENCY_OUTPUTS <= r.cols.Keys
            && r.cols[TOTAL_DELINQUENCY] == TotalColumn(t)
            && r.cols[EVER_DELINQUENT] == AboveColumn(TotalColumn(t), 0.0)
            && r.cols[EVER_90_DAYS_LATE] == (if LATE_90 in t.cols then AboveColumn(t.cols[LATE_90], 0.0) else Const(t.rows, Num(0.0)))
            && r.cols[MULTIPLE_DELINQUENCY] == AtLeastColumn(TotalColumn(t), 2.0)
            && r.cols[SEVERITY_SCORE] == SeverityColumn(GetOr(t, PAST_DUE_30_59), GetOr(t, PAST_DUE_60_89), GetOr(t, LATE_90))
  {
    DelinquencyFlagColumns(t);
    DelinquencyCountsKept(t);
  }


  /** The delinquency aggregates of one row: the total is the row sum when
      all three counts exist and 0 otherwise, and each flag is 0/1 and set
      exactly when its condition holds. */
  lemma DelinquencyFlags(t: Table, i: nat)
    requires t.Valid() && i < t.rows
    ensures var r := DelinquencyFeatures(t);
            DELINQUENCY_OUTPUTS <= r.cols.Keys
    ensures var r := DelinquencyFeatures(t);
            var total := r.cols[TOTAL_DELINQUENCY][i];
            && total == (if HasDelinquencyCounts(t)
                         then Num(OrZero(t.cols[PAST_DUE_30_59][i]) + OrZero(t.cols[PAST_DUE_60_89][i]) + OrZero(t.cols[LATE_90][i]))
                         else Num(0.0))
            && (r.cols[EVER_DELINQUENT][i] == Num(1.0) || r.cols[EVER_DELINQUENT][i] == Num(0.0))
            && (r.cols[EVER_DELINQUENT][i] == Num(1.0) <==> total.v > 0.0)
            && (r.cols[MULTIPLE_DELINQUENCY][i] == Num(1.0) || r.cols[MULTIPLE_DELINQUENCY][i] == Num(0.0))
            && (r.cols[MULTIPLE_DELINQUENCY][i] == Num(1.0) <==> total.v >= 2.0)
            && (r.cols[EVER_90_DAYS_LATE][i] == Num(1.0) || r.cols[EVER_90_DAYS_LATE][i] == Num(0.0))
            && (r.cols[EVER_90_DAYS_LATE][i] == Num(1.0) <==>
                  LATE_90 in t.cols && t.cols[LATE_90][i].Num? && t.cols[LATE_90][i].v > 0.0)
  {
    DelinquencyColumns(t);
    assert TotalColumn(t)[i] == (if HasDelinquencyCounts(t)
      then Num(OrZero(t.cols[PAST_DUE_30_59][i]) + OrZero(t.cols[PAST_DUE_60_89][i]) + OrZero(t.cols[LATE_90][i]))
      else Num(0.0));
  }

  /** A row flagged for multiple delinquencies is flagged as delinquent. */
  lemma MultipleImpliesEver(t: Table, i: nat)
    requires t.Valid() && i < t.rows
    ensures DelinquencyFeatures(t).cols[MULTIPLE_DELINQUENCY][i] == Num(1.0) ==>
            DelinquencyFeatures(t).cols[EVER_DELINQUENT][i] == Num(1.0)
  {
    DelinquencyFlags(t, i);
  }

  /** The count `df.get(name, 0)` contributes to the severity score. */
  function CountOrZero(t: Table, name: string, i: nat): real
    requires t.Valid() && i < t.rows
  {
    if name in t.cols then OrZero(t.cols[name][i]) else 0.0
  }

  /** A count that is absent (counted as 0) or present as a number. */
  predicate CountReadable(t: Table, name: string, i: nat)
    requires t.Valid() && i < t.rows
  {
    name !in t.cols || t.cols[name][i].Num?
  }

  /** The severity score weighs the 30-59, 60-89 and 90+ day counts 1, 2 and
      3, an absent column counting as 0; a NaN count makes the score NaN. */
  lemma SeverityScore(t: Table, i: nat)
    requires t.Valid() && i < t.rows
    ensures SEVERITY_SCORE in DelinquencyFeatures(t).cols
    ensures var score := DelinquencyFeatures(t).cols[SEVERITY_SCORE][i];
            && (score.Num? <==> CountReadable(t, PAST_DUE_30_59, i) && CountReadable(t, PAST_DUE_60_89, i) && CountReadable(t, LATE_90, i))
            && (score.Num? ==> score.v == CountOrZero(t, PAST_DUE_30_59, i) + 2.0 * CountOrZero(t, PAST_DUE_60_89, i) + 3.0 * CountOrZero(t, LATE_90, i))
  {
    DelinquencyColumns(t);
    var score := DelinquencyFeatures(t).cols[SEVERITY_SCORE][i];
    assert score == SeverityCell(GetOr(t, PAST_DUE_30_59)[i], GetOr(t, PAST_DUE_60_89)[i], GetOr(t, LATE_90)[i]);
  }

  /** For non-negative counts the score lies between the total and three
      times the total. */
  lemma SeverityBracketsTotal(t: Table, i: nat)
    requires t.Valid() && i < t.rows && HasDelinquencyCounts(t)
    requires forall c :: c in DELINQ_COLS ==> t.cols[c][i].Num? && t.cols[c][i].v >= 0.0
    ensures var r := DelinquencyFeatures(t);
            && r.cols[TOTAL_DELINQUENCY][i].Num? && r.cols[SEVERITY_SCORE][i].Num?
            && r.cols[TOTAL_DELINQUENCY][i].v <= r.cols[SEVERITY_SCORE][i].v <= 3.0 * r.cols[TOTAL_DELINQUENCY][i].v
  {
    assert PAST_DUE_30_59 in DELINQ_COLS && PAST_DUE_60_89 in DELINQ_COLS && LATE_90 in DELINQ_COLS;
    DelinquencyFlags(t, i);
    SeverityScore(t, i);
  }

  /** Every numeric delinquency count is at most the cap. */
  ghost predicate CountsCapped(t: Table)
  {
    forall c, i :: c in DELINQ_COLS && c in t.cols && 0 <= i < |t.cols[c]| && t.cols[c][i].Num? ==> t.cols[c][i].v <= DELINQ_CAP
  }

  lemma CappedCountAtMost(t: Table, c: string, i: nat)
    requires t.Valid() && i < t.rows && CountsCapped(t) && c in DELINQ_COLS
    ensures CountOrZero(t, c, i) <= DELINQ_CAP
  {
    if c in t.cols && t.cols[c][i].Num? {
      assert t.cols[c][i].v <= DELINQ_CAP;
    }
  }

  /** With capped counts the score is at most 10 + 2 * 10 + 3 * 10 = 60. */
  lemma SeverityAtMost60(t: Table, i: nat)
    requires t.Valid() && i < t.rows && CountsCapped(t)
    ensures DelinquencyFeatures(t).cols[SEVERITY_SCORE][i].Num? ==> DelinquencyFeatures(t).cols[SEVERITY_SCORE][i].v <= 60.0
  {
    SeverityScore(t, i);
    CappedCountAtMost(t, PAST_DUE_30_59, i);
    CappedCountAtMost(t, PAST_DUE_60_89, i);
    CappedCountAtMost(t, LATE_90, i);
  }

  /** A stage that writes none of the count columns keeps them capped. */
  lemma ExtendsKeepsCapped(t: Table, r: Table, written: set<string>)
    requires Extends(t, r, written) && CountsCapped(t)
    requires forall c :: c in DELINQ_COLS ==> c !in written
    ensures CountsCapped(r)
  {
    forall c, i | c in DELINQ_COLS && c in r.cols && 0 <= i < |r.cols[c]| && r.cols[c][i].Num?
      ensures r.cols[c][i].v <= DELINQ_CAP
    {
      assert c in t.cols && r.cols[c] == t.cols[c];
    }
  }

  lemma CleanedCountsCapped(df: Table)
    requires df.Valid()
    ensures CountsCapped(Cleaned(df))
  {
    forall c | c in DELINQ_COLS && c in Cleaned(df).cols
      ensures forall i :: 0 <= i < |Cleaned(df).cols[c]| && Cleaned(df).cols[c][i].Num? ==> Cleaned(df).cols[c][i].v <= DELINQ_CAP
    {
      CleanedCapsDelinquency(df, c);
    }
  }

  /** In the preparation pipeline the severity score never exceeds 60. */
  lemma SeverityAfterCleaning(df: Table, i: nat)
    requires df.Valid() && i < df.rows
    ensures var t := CoreNumericFeatures(Cleaned(df));
            DelinquencyFeatures(t).cols[SEVERITY_SCORE][i].Num? ==> DelinquencyFeatures(t).cols[SEVERITY_SCORE][i].v <= 60.0
  {
    var t := CoreNumericFeatures(Cleaned(df));
    CleanedCountsCapped(df);
    CoreNumericExtends(Cleaned(df));
    ExtendsKeepsCapped(Cleaned(df), t, CORE_NUMERIC_OUTPUTS);
    SeverityAtMost60(t, i);
  }


  /** HighDebtFlag is 0/1 and set exactly when the ratio reaches the batch's
      0.93 quantile; without a ratio column no row is flagged. */
  lemma HighDebtFlagIff(t: Table, i: nat)
    requires t.Valid() && i < t.rows
    ensures HIGH_DEBT_FLAG in RiskFlags(t).cols
    ensures var flag := RiskFlags(t).cols[HIGH_DEBT_FLAG][i];
            && (flag == Num(1.0) || flag == Num(0.0))
            && (flag == Num(1.0) <==>
                  && DEBT_TO_INCOME in t.cols
                  && var q := Stats.Quantile(Present(t.cols[DEBT_TO_INCOME]), HIGH_DEBT_QUANTILE);
                  q.Some? && t.cols[DEBT_TO_INCOME][i].Num? && t.cols[DEBT_TO_INCOME][i].v >= q.value)
  {
  }

  /** The row with the largest debt-to-income ratio is always flagged. */
  lemma LargestRatioFlagged(t: Table, k: nat)
    requires t.Valid() && k < t.rows && DEBT_TO_INCOME in t.cols
    requires t.cols[DEBT_TO_INCOME][k].Num?
    requires forall i :: 0 <= i < t.rows && t.cols[DEBT_TO_INCOME][i].Num? ==> t.cols[DEBT_TO_INCOME][i].v <= t.cols[DEBT_TO_INCOME][k].v
    ensures RiskFlags(t).cols[HIGH_DEBT_FLAG][k] == Num(1.0)
  {
    var col := t.cols[DEBT_TO_INCOME];
    var xs := Present(col);
    var m := col[k].v;
    assert Num(m) in col;
    assert m in xs;
    forall j | 0 <= j < |xs| ensures xs[j] <= m {
      assert xs[j] in xs;
      assert Num(xs[j]) in col;
    }
    Stats.QuantileAtMostBound(xs, HIGH_DEBT_QUANTILE, m);
    HighDebtFlagIff(t, k);
  }

  // Bin bands, written out interval by interval

  /** AgeBin: (0, 30], (30, 45], (45, 60], (60, inf); ages at or below 0 get none. */
  function AgeBand(x: real): Cell
  {
    if x <= 0.0 then Missing
    else if x <= 30.0 then Label("18-30")
    else if x <= 45.0 then Label("31-45")
    else if x <= 60.0 then Label("46-60")
    else Label("60+")
  }

  /** IncomeBin: (0, 3000], (3000, 6000], (6000, 10000], (10000, inf); zero income gets none. */
  function IncomeBand(x: real): Cell
  {
    if x <= 0.0 then Missing
    else if x <= 3000.0 then Label("0-3k")
    else if x <= 6000.0 then Label("3-6k")
    else if x <= 10000.0 then Label("6-10k")
    else Label("10k+")
  }

  /** UtilizationBin: (0, 0.3], (0.3, 0.7], (0.7, 1.0], (1.0, inf); zero utilisation gets none. */
  function UtilizationBand(x: real): Cell
  {
    if x <= 0.0 then Missing
    else if x <= 0.3 then Label("0-30%")
    else if x <= 0.7 then Label("30-70%")
    else if x <= 1.0 then Label("70-100%")
    else Label("100%+")
  }

  /** DelinqBin: [0, 1), [1, 2), [2, 4), [4, inf); only negative totals get none. */
  function DelinquencyBand(x: real): Cell
  {
    if x < 0.0 then Missing
    else if x < 1.0 then Label("0")
    else if x < 2.0 then Label("1")
    else if x < 4.0 then Label("2-3")
    else Label("4+")
  }

  lemma AgeBinBands(x: real)
    ensures Binning.CutCell(Num(x), AGE_EDGES, AGE_LABELS, true) == AgeBand(x)
  {
    var e := AGE_EDGES;
    assert Binning.Increasing(e);
    Binning.CutCellIsInterval(x, e, AGE_LABELS, true);
    if x > 0.0 {
      var i := if x <= 30.0 then 0 else if x <= 45.0 then 1 else if x <= 60.0 then 2 else 3;
      assert Binning.InBin(x, e, i, true);
    }
  }

  lemma IncomeBinBands(x: real)
    ensures Binning.CutCell(Num(x), INCOME_EDGES, INCOME_LABELS, true) == IncomeBand(x)
  {
    var e := INCOME_EDGES;
    assert Binning.Increasing(e);
    Binning.CutCellIsInterval(x, e, INCOME_LABELS, true);
    if x > 0.0 {
      var i := if x <= 3000.0 then 0 else if x <= 6000.0 then 1 else if x <= 10000.0 then 2 else 3;
      assert Binning.InBin(x, e, i, true);
    }
  }

  lemma UtilizationBinBands(x: real)
    ensures Binning.CutCell(Num(x), UTILIZATION_EDGES, UTILIZATION_LABELS, true) == UtilizationBand(x)
  {
    var e := UTILIZATION_EDGES;
    assert Binning.Increasing(e);
    Binning.CutCellIsInterval(x, e, UTILIZATION_LABELS, true);
    if x > 0.0 {
      var i := if x <= 0.3 then 0 else if x <= 0.7 then 1 else if x <= 1.0 then 2 else 3;
      assert Binning.InBin(x, e, i, true);
    }
  }

  lemma DelinquencyBinBands(x: real)
    ensures Binning.CutCell(Num(x), DELINQ_EDGES, DELINQ_LABELS, false) == DelinquencyBand(x)
  {
    var e := DELINQ_EDGES;
    assert Binning.Increasing(e);
    Binning.CutCellIsInterval(x, e, DELINQ_LABELS, false);
    if x >= 0.0 {
      var i := if x < 1.0 then 0 else if x < 2.0 then 1 else if x < 4.0 then 2 else 3;
      assert Binning.InBin(x, e, i, false);
    }
  }

  // Where add_binning_features puts the four bins, one at a time.

  lemma AgeBinColumn(t: Table)
    requires t.Valid() && AGE in t.cols
    ensures AGE_BIN in BinningFeatures(t).cols
    ensures BinningFeatures(t).cols[AGE_BIN] == Binning.Cut(t.cols[AGE], AGE_EDGES, AGE_LABELS, true)
  {
    var t0 := t;
    var t1 := BinFeature(t0, AGE, AGE_BIN, AGE_EDGES, AGE_LABELS, true);
    var t2 := BinFeature(t1, MONTHLY_INCOME, INCOME_BIN, INCOME_EDGES, INCOME_LABELS, true);
    var t3 := BinFeature(t2, UTILIZATION, UTILIZATION_BIN, UTILIZATION_EDGES, UTILIZATION_LABELS, true);
    assert t0.cols[AGE] == t.cols[AGE];
  }

  lemma IncomeBinColumn(t: Table)
    requires t.Valid() && MONTHLY_INCOME in t.cols
    ensures INCOME_BIN in BinningFeatures(t).cols
    ensures BinningFeatures(t).cols[INCOME_BIN] == Binning.Cut(t.cols[MONTHLY_INCOME], INCOME_EDGES, INCOME_LABELS, true)
  {
    var t0 := t;
    var t1 := BinFeature(t0, AGE, AGE_BIN, AGE_EDGES, AGE_LABELS, true);
    var t2 := BinFeature(t1, MONTHLY_INCOME, INCOME_BIN, INCOME_EDGES, INCOME_LABELS, true);
    var t3 := BinFeature(t2, UTILIZATION, UTILIZATION_BIN, UTILIZATION_EDGES, UTILIZATION_LABELS, true);
    assert t1.cols[MONTHLY_INCOME] == t.cols[MONTHLY_INCOME];
  }

  lemma UtilizationBinColumn(t: Table)
    requires t.Valid() && UTILIZATION in t.cols
    ensures UTILIZATION_BIN in BinningFeatures(t).cols
    ensures BinningFeatures(t).cols[UTILIZATION_BIN] == Binning.Cut(t.cols[UTILIZATION], UTILIZATION_EDGES, UTILIZATION_LABELS, true)
  {
    var t0 := t;
    var t1 := BinFeature(t0, AGE, AGE_BIN, AGE_EDGES, AGE_LABELS, true);
    var t2 := BinFeature(t1, MONTHLY_INCOME, INCOME_BIN, INCOME_EDGES, INCOME_LABELS, true);
    var t3 := BinFeature(t2, UTILIZATION, UTILIZATION_BIN, UTILIZATION_EDGES, UTILIZATION_LABELS, true);
    assert t2.cols[UTILIZATION] == t.cols[UTILIZATION];
  }

  lemma DelinqBinColumn(t: Table)
    requires t.Valid() && TOTAL_DELINQUENCY in t.cols
    ensures DELINQ_BIN in BinningFeatures(t).cols
    ensures BinningFeatures(t).cols[DELINQ_BIN] == Binning.Cut(t.cols[TOTAL_DELINQUENCY], DELINQ_EDGES, DELINQ_LABELS, false)
  {
    var t0 := t;
    var t1 := BinFeature(t0, AGE, AGE_BIN, AGE_EDGES, AGE_LABELS, true);
    var t2 := BinFeature(t1, MONTHLY_INCOME, INCOME_BIN, INCOME_EDGES, INCOME_LABELS, true);
    var t3 := BinFeature(t2, UTILIZATION, UTILIZATION_BIN, UTILIZATION_EDGES, UTILIZATION_LABELS, true);
    assert t3.cols[TOTAL_DELINQUENCY] == t.cols[TOTAL_DELINQUENCY];
  }


  /** Every row's bins follow the bands: ages, incomes and utilisations at
      or below 0 get no bin, every non-negative delinquency total gets
      exactly one, and a NaN value gets none. */
  lemma BinningRows(t: Table, i: nat)
    requires t.Valid() && i < t.rows
    ensures var r := BinningFeatures(t);
      && (AGE in t.cols ==> r.cols[AGE_BIN][i] == (if t.cols[AGE][i].Num? then AgeBand(t.cols[AGE][i].v) else Missing))
      && (MONTHLY_INCOME in t.cols ==>
            r.cols[INCOME_BIN][i] == (if t.cols[MONTHLY_INCOME][i].Num? then IncomeBand(t.cols[MONTHLY_INCOME][i].v) else Missing))
      && (UTILIZATION in t.cols ==>
            r.cols[UTILIZATION_BIN][i] == (if t.cols[UTILIZATION][i].Num? then UtilizationBand(t.cols[UTILIZATION][i].v) else Missing))
      && (TOTAL_DELINQUENCY in t.cols ==>
            r.cols[DELINQ_BIN][i] == (if t.cols[TOTAL_DELINQUENCY][i].Num? then DelinquencyBand(t.cols[TOTAL_DELINQUENCY][i].v) else Missing))
  {
    if AGE in t.cols { AgeBinColumn(t); }
    if MONTHLY_INCOME in t.cols { IncomeBinColumn(t); }
    if UTILIZATION in t.cols { UtilizationBinColumn(t); }
    if TOTAL_DELINQUENCY in t.cols { DelinqBinColumn(t); }
    if AGE in t.cols && t.cols[AGE][i].Num? { AgeBinBands(t.cols[AGE][i].v); }
    if MONTHLY_INCOME in t.cols && t.cols[MONTHLY_INCOME][i].Num? { IncomeBinBands(t.cols[MONTHLY_INCOME][i].v); }
    if UTILIZATION in t.cols && t.cols[UTILIZATION][i].Num? { UtilizationBinBands(t.cols[UTILIZATION][i].v); }
    if TOTAL_DELINQUENCY in t.cols && t.cols[TOTAL_DELINQUENCY][i].Num? { DelinquencyBinBands(t.cols[TOTAL_DELINQUENCY][i].v); }
  }

  /** What a product step writes. */
  lemma ProductFeatureWrites(t: Table, a: string, b: string, out: string)
    requires t.Valid() && a in t.cols && b in t.cols
    ensures out in ProductFeature(t, a, b, out).cols
    ensures ProductFeature(t, a, b, out).cols[out] == ProductColumn(t.cols[a], t.cols[b])
  {
  }

  // Where add_interaction_features puts its products, one column at a time.

  lemma UtilizationXDebtColumn(t: Table)
    requires t.Valid() && UTILIZATION in t.cols && DEBT_RATIO in t.cols
    ensures UTILIZATION_X_DEBT in InteractionFeatures(t).cols
    ensures InteractionFeatures(t).cols[UTILIZATION_X_DEBT] == ProductColumn(t.cols[UTILIZATION], t.cols[DEBT_RATIO])
  {
    var t0 := t;
    var t1 := ProductFeature(t0, UTILIZATION, DEBT_RATIO, UTILIZATION_X_DEBT);
    ProductFeatureWrites(t0, UTILIZATION, DEBT_RATIO, UTILIZATION_X_DEBT);
    var t2 := ProductFeature(t1, MONTHLY_INCOME, AGE, INCOME_X_AGE);
    var t3 := ProductFeature(t2, TOTAL_DELINQUENCY, UTILIZATION, DELINQ_X_UTILIZATION);
    var t4 := ProductFeature(t3, OPEN_CREDIT_LINES, REAL_ESTATE_LOANS, OPEN_LINES_X_REAL_ESTATE);
    var t5 := ProductFeature(t4, HIGH_UTILIZATION_FLAG, DEBT_RATIO, HIGH_UTIL_X_DEBT);
  }

  lemma IncomeXAgeColumn(t: Table)
    requires t.Valid() && MONTHLY_INCOME in t.cols && AGE in t.cols
    ensures INCOME_X_AGE in InteractionFeatures(t).cols
    ensures InteractionFeatures(t).cols[INCOME_X_AGE] == ProductColumn(t.cols[MONTHLY_INCOME], t.cols[AGE])
  {
    var t0 := t;
    var t1 := ProductFeature(t0, UTILIZATION, DEBT_RATIO, UTILIZATION_X_DEBT);
    var t2 := ProductFeature(t1, MONTHLY_INCOME, AGE, INCOME_X_AGE);
    ProductFeatureWrites(t1, MONTHLY_INCOME, AGE, INCOME_X_AGE);
    var t3 := ProductFeature(t2, TOTAL_DELINQUENCY, UTILIZATION, DELINQ_X_UTILIZATION);
    var t4 := ProductFeature(t3, OPEN_CREDIT_LINES, REAL_ESTATE_LOANS, OPEN_LINES_X_REAL_ESTATE);
    var t5 := ProductFeature(t4, HIGH_UTILIZATION_FLAG, DEBT_RATIO, HIGH_UTIL_X_DEBT);
  }

  lemma DelinqXUtilizationColumn(t: Table)
    requires t.Valid() && TOTAL_DELINQUENCY in t.cols && UTILIZATION in t.cols
    ensures DELINQ_X_UTILIZATION in InteractionFeatures(t).cols
    ensures InteractionFeatures(t).cols[DELINQ_X_UTILIZATION] == ProductColumn(t.cols[TOTAL_DELINQUENCY], t.cols[UTILIZATION])
  {
    var t0 := t;
    var t1 := ProductFeature(t0, UTILIZATION, DEBT_RATIO, UTILIZATION_X_DEBT);
    var t2 := ProductFeature(t1, MONTHLY_INCOME, AGE, INCOME_X_AGE);
    var t3 := ProductFeature(t2, TOTAL_DELINQUENCY, UTILIZATION, DELINQ_X_UTILIZATION);
    ProductFeatureWrites(t2, TOTAL_DELINQUENCY, UTILIZATION, DELINQ_X_UTILIZATION);
    var t4 := ProductFeature(t3, OPEN_CREDIT_LINES, REAL_ESTATE_LOANS, OPEN_LINES_X_REAL_ESTATE);
    var t5 := ProductFeature(t4, HIGH_UTILIZATION_FLAG, DEBT_RATIO, HIGH_UTIL_X_DEBT);
  }

  lemma OpenLinesXRealEstateColumn(t: Table)
    requires t.Valid() && OPEN_CREDIT_LINES in t.cols && REAL_ESTATE_LOANS in t.cols
    ensures OPEN_LINES_X_REAL_ESTATE in InteractionFeatures(t).cols
    ensures InteractionFeatures(t).cols[OPEN_LINES_X_REAL_ESTATE] == ProductColumn(t.cols[OPEN_CREDIT_LINES], t.cols[REAL_ESTATE_LOANS])
  {
    var t0 := t;
    var t1 := ProductFeature(t0, UTILIZATION, DEBT_RATIO, UTILIZATION_X_DEBT);
    var t2 := ProductFeature(t1, MONTHLY_INCOME, AGE, INCOME_X_AGE);
    var t3 := ProductFeature(t2, TOTAL_DELINQUENCY, UTILIZATION, DELINQ_X_UTILIZATION);
    var t4 := ProductFeature(t3, OPEN_CREDIT_LINES, REAL_ESTATE_LOANS, OPEN_LINES_X_REAL_ESTATE);
    ProductFeatureWrites(t3, OPEN_CREDIT_LINES, REAL_ESTATE_LOANS, OPEN_LINES_X_REAL_ESTATE);
    var t5 := ProductFeature(t4, HIGH_UTILIZATION_FLAG, DEBT_RATIO, HIGH_UTIL_X_DEBT);
  }

  lemma HighUtilXDebtColumn(t: Table)
    requires t.Valid() && HIGH_UTILIZATION_FLAG in t.cols && DEBT_RATIO in t.cols
    ensures HIGH_UTIL_X_DEBT in InteractionFeatures(t).cols
    ensures InteractionFeatures(t).cols[HIGH_UTIL_X_DEBT] == ProductColumn(t.cols[HIGH_UTILIZATION_FLAG], t.cols[DEBT_RATIO])
  {
    var t0 := t;
    var t1 := ProductFeature(t0, UTILIZATION, DEBT_RATIO, UTILIZATION_X_DEBT);
    var t2 := ProductFeature(t1, MONTHLY_INCOME, AGE, INCOME_X_AGE);
    var t3 := ProductFeature(t2, TOTAL_DELINQUENCY, UTILIZATION, DELINQ_X_UTILIZATION);
    var t4 := ProductFeature(t3, OPEN_CREDIT_LINES, REAL_ESTATE_LOANS, OPEN_LINES_X_REAL_ESTATE);
    var t5 := ProductFeature(t4, HIGH_UTILIZATION_FLAG, DEBT_RATIO, HIGH_UTIL_X_DEBT);
    ProductFeatureWrites(t4, HIGH_UTILIZATION_FLAG, DEBT_RATIO, HIGH_UTIL_X_DEBT);
  }

  /** HighUtil_x_DebtRatio is 0 on every row whose utilisation flag is 0
      and whose debt ratio is present. */
  lemma HighUtilXDebtZero(t: Table, i: nat)
    requires t.Valid() && HIGH_UTILIZATION_FLAG in t.cols && DEBT_RATIO in t.cols && i < t.rows
    requires t.cols[HIGH_UTILIZATION_FLAG][i] == Num(0.0) && t.cols[DEBT_RATIO][i].Num?
    ensures HIGH_UTIL_X_DEBT in InteractionFeatures(t).cols
    ensures InteractionFeatures(t).cols[HIGH_UTIL_X_DEBT][i] == Num(0.0)
  {
    HighUtilXDebtColumn(t);
  }

  // Where add_domain_features puts what it computes, one column at a time.

  lemma EffectiveDebtLoadColumn(t: Table)
    requires t.Valid() && DEBT_RATIO in t.cols && MONTHLY_INCOME in t.cols
    ensures EFFECTIVE_DEBT_LOAD in DomainFeatures(t).cols
    ensures DomainFeatures(t).cols[EFFECTIVE_DEBT_LOAD] == ProductColumn(t.cols[DEBT_RATIO], t.cols[MONTHLY_INCOME])
  {
    var t1 := ProductFeature(t, DEBT_RATIO, MONTHLY_INCOME, EFFECTIVE_DEBT_LOAD);
    ProductFeatureWrites(t, DEBT_RATIO, MONTHLY_INCOME, EFFECTIVE_DEBT_LOAD);
    var t2 := RatioFeature(t1, OPEN_CREDIT_LINES, AGE, CREDIT_LINE_DENSITY);
    var t3 := ProductFeature(t2, REAL_ESTATE_LOANS, DEBT_RATIO, REAL_ESTATE_EXPOSURE);
  }

  lemma CreditLineDensityColumn(t: Table)
    requires t.Valid() && OPEN_CREDIT_LINES in t.cols && AGE in t.cols
    ensures CREDIT_LINE_DENSITY in DomainFeatures(t).cols
    ensures DomainFeatures(t).cols[CREDIT_LINE_DENSITY] == SafeRatioColumn(t.cols[OPEN_CREDIT_LINES], t.cols[AGE])
  {
    var t1 := ProductFeature(t, DEBT_RATIO, MONTHLY_INCOME, EFFECTIVE_DEBT_LOAD);
    var t2 := RatioFeature(t1, OPEN_CREDIT_LINES, AGE, CREDIT_LINE_DENSITY);
    var t3 := ProductFeature(t2, REAL_ESTATE_LOANS, DEBT_RATIO, REAL_ESTATE_EXPOSURE);
  }

  lemma RealEstateExposureColumn(t: Table)
    requires t.Valid() && REAL_ESTATE_LOANS in t.cols && DEBT_RATIO in t.cols
    ensures REAL_ESTATE_EXPOSURE in DomainFeatures(t).cols
    ensures DomainFeatures(t).cols[REAL_ESTATE_EXPOSURE] == ProductColumn(t.cols[REAL_ESTATE_LOANS], t.cols[DEBT_RATIO])
  {
    var t1 := ProductFeature(t, DEBT_RATIO, MONTHLY_INCOME, EFFECTIVE_DEBT_LOAD);
    var t2 := RatioFeature(t1, OPEN_CREDIT_LINES, AGE, CREDIT_LINE_DENSITY);
    var t3 := ProductFeature(t2, REAL_ESTATE_LOANS, DEBT_RATIO, REAL_ESTATE_EXPOSURE);
    ProductFeatureWrites(t2, REAL_ESTATE_LOANS, DEBT_RATIO, REAL_ESTATE_EXPOSURE);
  }

  lemma FinancialStressColumn(t: Table)
    requires t.Valid() && DEBT_RATIO in t.cols && UTILIZATION in t.cols
    ensures FINANCIAL_STRESS in DomainFeatures(t).cols
    ensures DomainFeatures(t).cols[FINANCIAL_STRESS] == Log1pColumn(ProductColumn(t.cols[DEBT_RATIO], t.cols[UTILIZATION]))
  {
    var t1 := ProductFeature(t, DEBT_RATIO, MONTHLY_INCOME, EFFECTIVE_DEBT_LOAD);
    var t2 := RatioFeature(t1, OPEN_CREDIT_LINES, AGE, CREDIT_LINE_DENSITY);
    var t3 := ProductFeature(t2, REAL_ESTATE_LOANS, DEBT_RATIO, REAL_ESTATE_EXPOSURE);
  }

  /** CreditLineDensity times age gives the open lines back wherever age is
      present and not zero, and is 0 on every other row. */
  lemma CreditLineDensityRows(t: Table, i: nat)
    requires t.Valid() && OPEN_CREDIT_LINES in t.cols && AGE in t.cols && i < t.rows
    ensures CREDIT_LINE_DENSITY in DomainFeatures(t).cols
    ensures var d := DomainFeatures(t).cols[CREDIT_LINE_DENSITY][i];
            var o := t.cols[OPEN_CREDIT_LINES][i];
            var a := t.cols[AGE][i];
            && d.Num?
            && (o.Num? && a.Num? && a.v != 0.0 ==> Undoes(d, a, o))
            && (!(o.Num? && a.Num? && a.v != 0.0) ==> d == Num(0.0))
  {
    CreditLineDensityColumn(t);
  }

  /** Feature selection keeps the surviving columns in their input order. */
  lemma FeatureSelectionKeepsOrder(t: Table, i: nat, j: nat)
    requires t.Valid() && i < j < |FeatureSelection(t).names|
    ensures IndexOf(t.names, FeatureSelection(t).names[i]) < IndexOf(t.names, FeatureSelection(t).names[j])
  {
    var drop := set c | c in FINAL_DROP_COLS;
    KeepOrder(t.names, drop, i, j);
  }

  /** Selecting twice is selecting once. */
  lemma FeatureSelectionIdempotent(t: Table)
    ensures FeatureSelection(FeatureSelection(t)) == FeatureSelection(t)
  {
    var drop := set c | c in FINAL_DROP_COLS;
    KeepKeep(t.names, drop, drop);
    assert drop + drop == drop;
    assert FeatureSelection(FeatureSelection(t)).cols == FeatureSelection(t).cols;
  }
}

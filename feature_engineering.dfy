/** `src/feature_engineering.py`: the stricter variant of the feature
    derivations. Every step first checks that the columns it needs are there
    and raises otherwise; it then copies the frame and writes its columns one
    after another. Each step is a method over a `Frame`, proved equal to a
    function that states the outcome: the extended table, or the error. */
module FeatureEngineering {
  import opened Basics
  import opened Frames
  import opened Schema
  import opened NameOrder
  import Binning
  import Preprocessing

  /** The `ValueError` a step raises: the step's name and the missing
      columns, sorted. */
  datatype MissingColumns = MissingColumns(context: string, missing: seq<string>)

  type Outcome = Result<Table, MissingColumns>

  // ---------------------------------------------------------------------
  // _check_required_columns
  // ---------------------------------------------------------------------

  /** The required names that are not columns of `t`, in the order given. */
  function Absent(t: Table, required: seq<string>): (r: seq<string>)
    ensures forall n :: n in r <==> n in required && n !in t.cols
  {
    if required == [] then []
    else
      var last := required[|required| - 1];
      Absent(t, required[..|required| - 1]) + (if last in t.cols then [] else [last])
  }

  /** No error when every required column is present; otherwise the error
      names exactly the missing ones, each once, in sorted order. */
  function CheckRequiredColumns(t: Table, required: seq<string>, context: string): (r: Option<MissingColumns>)
    ensures r.None? <==> forall n :: n in required ==> n in t.cols
    ensures r.Some? ==> r.value.context == context && |r.value.missing| > 0
    ensures r.Some? ==> StrictlySorted(r.value.missing)
    ensures r.Some? ==> forall n :: n in r.value.missing <==> n in required && n !in t.cols
  {
    var missing := Absent(t, required);
    if missing == [] then None
    else
      assert missing[0] in missing;
      Some(MissingColumns(context, SortedSet(missing)))
  }

  /** The error does not depend on the order or repetition of the required
      names, only on which of them are missing. */
  lemma CheckOrderFree(t: Table, a: seq<string>, b: seq<string>, context: string)
    requires forall n :: n in a <==> n in b
    ensures CheckRequiredColumns(t, a, context) == CheckRequiredColumns(t, b, context)
  {
    var ra := CheckRequiredColumns(t, a, context);
    var rb := CheckRequiredColumns(t, b, context);
    if ra.Some? && rb.Some? {
      SortedUnique(ra.value.missing, rb.value.missing);
    }
  }

  /** `series.fillna(0)` on a numeric series (infinities are not modelled,
      so `replace([inf, -inf], nan).fillna(0)` is the same). */
  function OrZeroColumn(col: seq<Cell>): (r: seq<Cell>)
    ensures |r| == |col| && forall i :: 0 <= i < |col| ==> r[i] == Num(OrZero(col[i]))
  {
    seq(|col|, i requires 0 <= i < |col| => Num(OrZero(col[i])))
  }

  // ---------------------------------------------------------------------
  // add_delinquency_features
  // ---------------------------------------------------------------------

  const DELINQUENCY_CONTEXT := "add_delinquency_features"

  /** The five delinquency columns, written once the counts are known to
      be present. */
  function DelinquencyStage(t: Table): (r: Table)
    requires t.Valid() && Preprocessing.HasDelinquencyCounts(t)
    ensures r.Valid() && r.rows == t.rows
  {
    var t1 := t.With(TOTAL_DELINQUENCY, SumColumn(t.cols[PAST_DUE_30_59], t.cols[PAST_DUE_60_89], t.cols[LATE_90]));
    var t2 := t1.With(EVER_DELINQUENT, AboveColumn(t1.cols[TOTAL_DELINQUENCY], 0.0));
    var t3 := t2.With(EVER_90_DAYS_LATE, AboveColumn(t2.cols[LATE_90], 0.0));
    var t4 := t3.With(MULTIPLE_DELINQUENCY, AtLeastColumn(t3.cols[TOTAL_DELINQUENCY], 2.0));
    t4.With(SEVERITY_SCORE, Preprocessing.SeverityColumn(t4.cols[PAST_DUE_30_59], t4.cols[PAST_DUE_60_89], t4.cols[LATE_90]))
  }

  function DelinquencyFeatures(t: Table): (r: Outcome)
    requires t.Valid()
    ensures r.Ok? <==> Preprocessing.HasDelinquencyCounts(t)
    ensures r.Ok? ==> r.value.Valid() && r.value.rows == t.rows
    ensures r.Err? ==> r.error.context == DELINQUENCY_CONTEXT
    ensures r.Err? ==> forall n :: n in r.error.missing <==> n in Preprocessing.DELINQ_COLS && n !in t.cols
  {
    var check := CheckRequiredColumns(t, Preprocessing.DELINQ_COLS, DELINQUENCY_CONTEXT);
    if check.Some? then Err(check.value) else Ok(DelinquencyStage(t))
  }

  method AddDelinquencyFeatures(df: Table) returns (out: Outcome)
    requires df.Valid()
    ensures out == DelinquencyFeatures(df)
  {
    var check := CheckRequiredColumns(df, Preprocessing.DELINQ_COLS, DELINQUENCY_CONTEXT);
    if check.Some? {
      return Err(check.value);
    }
    var f := new Frame.Copy(df);
    f.Assign(TOTAL_DELINQUENCY, SumColumn(f.cols[PAST_DUE_30_59], f.cols[PAST_DUE_60_89], f.cols[LATE_90]));
    f.Assign(EVER_DELINQUENT, AboveColumn(f.cols[TOTAL_DELINQUENCY], 0.0));
    f.Assign(EVER_90_DAYS_LATE, AboveColumn(f.cols[LATE_90], 0.0));
    f.Assign(MULTIPLE_DELINQUENCY, AtLeastColumn(f.cols[TOTAL_DELINQUENCY], 2.0));
    f.Assign(SEVERITY_SCORE, Preprocessing.SeverityColumn(f.cols[PAST_DUE_30_59], f.cols[PAST_DUE_60_89], f.cols[LATE_90]));
    out := Ok(f.Value());
  }

  // ---------------------------------------------------------------------
  // add_utilization_interactions
  // ---------------------------------------------------------------------

  const UTILIZATION_CONTEXT := "add_utilization_interactions"
  const TOTAL_CONTEXT := "add_utilization_interactions/TotalDelinquency"

  /** An existing `TotalDelinquency` is kept; otherwise it is computed from
      the counts, which are then required. */
  function TotalIfAbsent(t: Table): (r: Outcome)
    requires t.Valid()
    ensures r.Ok? <==> TOTAL_DELINQUENCY in t.cols || Preprocessing.HasDelinquencyCounts(t)
    ensures r.Ok? ==> r.value.Valid() && r.value.rows == t.rows && TOTAL_DELINQUENCY in r.value.cols
    ensures r.Ok? ==> Extends(t, r.value, {TOTAL_DELINQUENCY})
    ensures r.Err? ==> r.error.context == TOTAL_CONTEXT
    ensures r.Err? ==> forall n :: n in r.error.missing <==> n in Preprocessing.DELINQ_COLS && n !in t.cols
  {
    if TOTAL_DELINQUENCY in t.cols then Ok(t)
    else
      var check := CheckRequiredColumns(t, Preprocessing.DELINQ_COLS, TOTAL_CONTEXT);
      if check.Some? then Err(check.value)
      else
        var total := SumColumn(t.cols[PAST_DUE_30_59], t.cols[PAST_DUE_60_89], t.cols[LATE_90]);
        WithExtends(t, TOTAL_DELINQUENCY, total, {TOTAL_DELINQUENCY});
        Ok(t.With(TOTAL_DELINQUENCY, total))
  }

  /** The four interaction columns, from utilisation and debt ratio with
      their gaps read as 0. */
  function UtilizationWrites(t: Table, util: seq<Cell>, debt: seq<Cell>): (r: Table)
    requires t.Valid() && TOTAL_DELINQUENCY in t.cols && |util| == t.rows && |debt| == t.rows
    ensures r.Valid() && r.rows == t.rows
  {
    var t1 := t.With(DELINQ_X_UTILIZATION, ProductColumn(t.cols[TOTAL_DELINQUENCY], util));
    var t2 := t1.With(UTILIZATION_X_DEBT, ProductColumn(util, debt));
    var t3 := t2.With(HIGH_UTILIZATION_FLAG, AboveColumn(util, 1.0));
    t3.With(HIGH_UTIL_X_DEBT, ProductColumn(t3.cols[HIGH_UTILIZATION_FLAG], debt))
  }

  predicate HasUtilizationInputs(t: Table)
  {
    UTILIZATION in t.cols && DEBT_RATIO in t.cols
  }

  function UtilizationInteractions(t: Table): (r: Outcome)
    requires t.Valid()
    ensures r.Ok? <==> HasUtilizationInputs(t) && (TOTAL_DELINQUENCY in t.cols || Preprocessing.HasDelinquencyCounts(t))
    ensures r.Ok? ==> r.value.Valid() && r.value.rows == t.rows
    ensures r.Err? ==> r.error.context in {UTILIZATION_CONTEXT, TOTAL_CONTEXT}
    ensures r.Err? && r.error.context == UTILIZATION_CONTEXT ==>
              forall n :: n in r.error.missing <==> n in [UTILIZATION, DEBT_RATIO] && n !in t.cols
    ensures r.Err? && r.error.context == TOTAL_CONTEXT ==>
              HasUtilizationInputs(t) && TOTAL_DELINQUENCY !in t.cols &&
              forall n :: n in r.error.missing <==> n in Preprocessing.DELINQ_COLS && n !in t.cols
  {
    var check := CheckRequiredColumns(t, [UTILIZATION, DEBT_RATIO], UTILIZATION_CONTEXT);
    if check.Some? then Err(check.value)
    else
      var util := OrZeroColumn(t.cols[UTILIZATION]);
      var debt := OrZeroColumn(t.cols[DEBT_RATIO]);
      var withTotal :- TotalIfAbsent(t);
      Ok(UtilizationWrites(withTotal, util, debt))
  }

  method AddUtilizationInteractions(df: Table) returns (out: Outcome)
    requires df.Valid()
    ensures out == UtilizationInteractions(df)
  {
    var check := CheckRequiredColumns(df, [UTILIZATION, DEBT_RATIO], UTILIZATION_CONTEXT);
    if check.Some? {
      return Err(check.value);
    }
    var f := new Frame.Copy(df);
    var util := OrZeroColumn(f.cols[UTILIZATION]);
    var debt := OrZeroColumn(f.cols[DEBT_RATIO]);
    var totalCheck := AssignTotalIfAbsent(f);
    if totalCheck.Some? {
      return Err(totalCheck.value);
    }
    ghost var withTotal := f.Value();
    AssignUtilizationWrites(f, util, debt);
    UtilizationInteractionsOk(df, withTotal);
    out := Ok(f.Value());
  }

  lemma UtilizationInteractionsOk(t: Table, withTotal: Table)
    requires t.Valid() && HasUtilizationInputs(t) && TotalIfAbsent(t) == Ok(withTotal)
    ensures UtilizationInteractions(t)
         == Ok(UtilizationWrites(withTotal, OrZeroColumn(t.cols[UTILIZATION]), OrZeroColumn(t.cols[DEBT_RATIO])))
  {
  }

  /** Computes `TotalDelinquency` in place when the frame lacks it; the
      error, if any, is the one TotalIfAbsent reports. */
  method AssignTotalIfAbsent(f: Frame) returns (err: Option<MissingColumns>)
    requires f.Value().Valid()
    modifies f
    ensures TotalIfAbsent(old(f.Value())) == if err.Some? then Err(err.value) else Ok(f.Value())
  {
    err := None;
    if TOTAL_DELINQUENCY !in f.cols {
      err := CheckRequiredColumns(f.Value(), Preprocessing.DELINQ_COLS, TOTAL_CONTEXT);
      if err.None? {
        f.Assign(TOTAL_DELINQUENCY, SumColumn(f.cols[PAST_DUE_30_59], f.cols[PAST_DUE_60_89], f.cols[LATE_90]));
      }
    }
  }

  method AssignUtilizationWrites(f: Frame, util: seq<Cell>, debt: seq<Cell>)
    requires f.Value().Valid() && TOTAL_DELINQUENCY in f.cols && |util| == f.rows && |debt| == f.rows
    modifies f
    ensures f.Value() == UtilizationWrites(old(f.Value()), util, debt)
  {
    f.Assign(DELINQ_X_UTILIZATION, ProductColumn(f.cols[TOTAL_DELINQUENCY], util));
    f.Assign(UTILIZATION_X_DEBT, ProductColumn(util, debt));
    f.Assign(HIGH_UTILIZATION_FLAG, AboveColumn(util, 1.0));
    f.Assign(HIGH_UTIL_X_DEBT, ProductColumn(f.cols[HIGH_UTILIZATION_FLAG], debt));
  }

  // ---------------------------------------------------------------------
  // add_debt_exposure_features
  // ---------------------------------------------------------------------

  const EXPOSURE_CONTEXT := "add_debt_exposure_features"
  const HIGH_DEBT_THRESHOLD: real := 0.4

  /** `RealEstateExposure`, when the real-estate count is there. */
  function RealEstateStep(t: Table, debt: seq<Cell>): (r: Table)
    requires t.Valid() && |debt| == t.rows
    ensures r.Valid() && r.rows == t.rows
    ensures forall n :: n != REAL_ESTATE_EXPOSURE ==> (n in r.cols <==> n in t.cols) && (n in t.cols ==> r.cols[n] == t.cols[n])
  {
    if REAL_ESTATE_LOANS in t.cols
    then t.With(REAL_ESTATE_EXPOSURE, ProductColumn(OrZeroColumn(t.cols[REAL_ESTATE_LOANS]), debt))
    else t
  }

  /** `FinancialStressIndex`, when utilisation is there. */
  function StressStep(t: Table, debt: seq<Cell>): (r: Table)
    requires t.Valid() && |debt| == t.rows
    ensures r.Valid() && r.rows == t.rows
    ensures forall n :: n != FINANCIAL_STRESS ==> (n in r.cols <==> n in t.cols) && (n in t.cols ==> r.cols[n] == t.cols[n])
  {
    if UTILIZATION in t.cols
    then t.With(FINANCIAL_STRESS, Log1pColumn(ProductColumn(debt, OrZeroColumn(t.cols[UTILIZATION]))))
    else t
  }

  /** `CreditLineDensity`, when open lines and age are there: the lines per
      year of age, 0 where age is 0 or missing. */
  function DensityStep(t: Table): (r: Table)
    requires t.Valid()
    ensures r.Valid() && r.rows == t.rows
    ensures forall n :: n != CREDIT_LINE_DENSITY ==> (n in r.cols <==> n in t.cols) && (n in t.cols ==> r.cols[n] == t.cols[n])
  {
    if OPEN_CREDIT_LINES in t.cols && AGE in t.cols
    then t.With(CREDIT_LINE_DENSITY, SafeRatioColumn(OrZeroColumn(t.cols[OPEN_CREDIT_LINES]), t.cols[AGE]))
    else t
  }

  /** `HighDebtFlag`, when the debt-to-income ratio is there. */
  function HighDebtStep(t: Table): (r: Table)
    requires t.Valid()
    ensures r.Valid() && r.rows == t.rows
    ensures forall n :: n != HIGH_DEBT_FLAG ==> (n in r.cols <==> n in t.cols) && (n in t.cols ==> r.cols[n] == t.cols[n])
  {
    if DEBT_TO_INCOME in t.cols
    then t.With(HIGH_DEBT_FLAG, AboveColumn(OrZeroColumn(t.cols[DEBT_TO_INCOME]), HIGH_DEBT_THRESHOLD))
    else t
  }

  predicate HasExposureInputs(t: Table)
  {
    DEBT_RATIO in t.cols && MONTHLY_INCOME in t.cols
  }

  function ExposureWrites(t: Table): (r: Table)
    requires t.Valid() && HasExposureInputs(t)
    ensures r.Valid() && r.rows == t.rows
  {
    var debt := OrZeroColumn(t.cols[DEBT_RATIO]);
    var income := OrZeroColumn(t.cols[MONTHLY_INCOME]);
    var t1 := t.With(EFFECTIVE_DEBT_LOAD, ProductColumn(debt, income));
    HighDebtStep(DensityStep(StressStep(RealEstateStep(t1, debt), debt)))
  }

  function DebtExposureFeatures(t: Table): (r: Outcome)
    requires t.Valid()
    ensures r.Ok? <==> HasExposureInputs(t)
    ensures r.Ok? ==> r.value.Valid() && r.value.rows == t.rows
    ensures r.Err? ==> r.error.context == EXPOSURE_CONTEXT
    ensures r.Err? ==> forall n :: n in r.error.missing <==> n in [DEBT_RATIO, MONTHLY_INCOME] && n !in t.cols
  {
    var check := CheckRequiredColumns(t, [DEBT_RATIO, MONTHLY_INCOME], EXPOSURE_CONTEXT);
    if check.Some? then Err(check.value) else Ok(ExposureWrites(t))
  }

  method AddDebtExposureFeatures(df: Table) returns (out: Outcome)
    requires df.Valid()
    ensures out == DebtExposureFeatures(df)
  {
    var check := CheckRequiredColumns(df, [DEBT_RATIO, MONTHLY_INCOME], EXPOSURE_CONTEXT);
    if check.Some? {
      return Err(check.value);
    }
    var f := new Frame.Copy(df);
    var debt := OrZeroColumn(f.cols[DEBT_RATIO]);
    var income := OrZeroColumn(f.cols[MONTHLY_INCOME]);
    f.Assign(EFFECTIVE_DEBT_LOAD, ProductColumn(debt, income));
    AssignRealEstate(f, debt);
    AssignStress(f, debt);
    AssignDensity(f);
    AssignHighDebt(f);
    out := Ok(f.Value());
  }

  // The optional exposure columns, written in place.

  method AssignRealEstate(f: Frame, debt: seq<Cell>)
    requires f.Value().Valid() && |debt| == f.rows
    modifies f
    ensures f.Value() == RealEstateStep(old(f.Value()), debt)
  {
    if REAL_ESTATE_LOANS in f.cols {
      f.Assign(REAL_ESTATE_EXPOSURE, ProductColumn(OrZeroColumn(f.cols[REAL_ESTATE_LOANS]), debt));
    }
  }

  method AssignStress(f: Frame, debt: seq<Cell>)
    requires f.Value().Valid() && |debt| == f.rows
    modifies f
    ensures f.Value() == StressStep(old(f.Value()), debt)
  {
    if UTILIZATION in f.cols {
      var util := OrZeroColumn(f.cols[UTILIZATION]);
      f.Assign(FINANCIAL_STRESS, Log1pColumn(ProductColumn(debt, util)));
    }
  }

  method AssignDensity(f: Frame)
    requires f.Value().Valid()
    modifies f
    ensures f.Value() == DensityStep(old(f.Value()))
  {
    if OPEN_CREDIT_LINES in f.cols && AGE in f.cols {
      f.Assign(CREDIT_LINE_DENSITY, SafeRatioColumn(OrZeroColumn(f.cols[OPEN_CREDIT_LINES]), f.cols[AGE]));
    }
  }

  method AssignHighDebt(f: Frame)
    requires f.Value().Valid()
    modifies f
    ensures f.Value() == HighDebtStep(old(f.Value()))
  {
    if DEBT_TO_INCOME in f.cols {
      f.Assign(HIGH_DEBT_FLAG, AboveColumn(OrZeroColumn(f.cols[DEBT_TO_INCOME]), HIGH_DEBT_THRESHOLD));
    }
  }

  // ---------------------------------------------------------------------
  // add_income_bins
  // ---------------------------------------------------------------------

  const INCOME_BINS_CONTEXT := "add_income_bins"

  /** The income bands, left-closed this time, over income with gaps read
      as 0. */
  function IncomeBinColumn(income: seq<Cell>): (r: seq<Cell>)
    ensures |r| == |income|
  {
    Binning.Cut(OrZeroColumn(income), Preprocessing.INCOME_EDGES, Preprocessing.INCOME_LABELS, false)
  }

  function IncomeBins(t: Table): (r: Outcome)
    requires t.Valid()
    ensures r.Ok? <==> MONTHLY_INCOME in t.cols
    ensures r.Ok? ==> r.value.Valid() && r.value.rows == t.rows
    ensures r.Err? ==> r.error == MissingColumns(INCOME_BINS_CONTEXT, [MONTHLY_INCOME])
  {
    var check := CheckRequiredColumns(t, [MONTHLY_INCOME], INCOME_BINS_CONTEXT);
    if check.Some? then
      SortedUnique(check.value.missing, [MONTHLY_INCOME]);
      Err(check.value)
    else Ok(t.With(INCOME_BIN, IncomeBinColumn(t.cols[MONTHLY_INCOME])))
  }

  method AddIncomeBins(df: Table) returns (out: Outcome)
    requires df.Valid()
    ensures out == IncomeBins(df)
  {
    var check := CheckRequiredColumns(df, [MONTHLY_INCOME], INCOME_BINS_CONTEXT);
    if check.Some? {
      return Err(check.value);
    }
    var f := new Frame.Copy(df);
    f.Assign(INCOME_BIN, IncomeBinColumn(f.cols[MONTHLY_INCOME]));
    out := Ok(f.Value());
  }

  // ---------------------------------------------------------------------
  // apply_all_feature_engineering
  // ---------------------------------------------------------------------

  /** The four steps in order; the first error stops the chain. */
  function AllFeatureEngineering(t: Table): (r: Outcome)
    requires t.Valid()
    ensures r.Ok? ==> r.value.Valid() && r.value.rows == t.rows
  {
    var a :- DelinquencyFeatures(t);
    var b :- UtilizationInteractions(a);
    var c :- DebtExposureFeatures(b);
    IncomeBins(c)
  }

  method ApplyAllFeatureEngineering(df: Table) returns (out: Outcome)
    requires df.Valid()
    ensures out == AllFeatureEngineering(df)
  {
    var a :- AddDelinquencyFeatures(df);
    var b :- AddUtilizationInteractions(a);
    var c :- AddDebtExposureFeatures(b);
    out := AddIncomeBins(c);
  }

  // ---------------------------------------------------------------------
  // Properties of add_delinquency_features
  // ---------------------------------------------------------------------

  /** Once the counts are present the strict step computes exactly what
      the preparation pipeline's delinquency stage computes. */
  lemma DelinquencyAgrees(t: Table)
    requires t.Valid() && Preprocessing.HasDelinquencyCounts(t)
    ensures DelinquencyFeatures(t) == Ok(Preprocessing.DelinquencyFeatures(t))
  {
    var t4 := Preprocessing.DelinquencyFlagStage(t);
    assert Preprocessing.TotalColumn(t) == SumColumn(t.cols[PAST_DUE_30_59], t.cols[PAST_DUE_60_89], t.cols[LATE_90]);
    assert Preprocessing.GetOr(t4, PAST_DUE_30_59) == t4.cols[PAST_DUE_30_59];
    assert Preprocessing.GetOr(t4, PAST_DUE_60_89) == t4.cols[PAST_DUE_60_89];
    assert Preprocessing.GetOr(t4, LATE_90) == t4.cols[LATE_90];
  }

  /** One row of the delinquency step: the total is the sum of the counts
      (gaps as 0), the flags are 0/1 and set exactly when their condition
      holds, and the score weighs the counts 1, 2 and 3. */
  lemma DelinquencyRows(t: Table, i: nat)
    requires t.Valid() && i < t.rows && Preprocessing.HasDelinquencyCounts(t)
    ensures DelinquencyFeatures(t).Ok?
    ensures var r := DelinquencyFeatures(t).value;
            var c30 := t.cols[PAST_DUE_30_59][i];
            var c60 := t.cols[PAST_DUE_60_89][i];
            var c90 := t.cols[LATE_90][i];
            && Preprocessing.DELINQUENCY_OUTPUTS <= r.cols.Keys
            && r.cols[TOTAL_DELINQUENCY][i] == Num(OrZero(c30) + OrZero(c60) + OrZero(c90))
            && (r.cols[EVER_DELINQUENT][i] == Num(1.0) || r.cols[EVER_DELINQUENT][i] == Num(0.0))
            && (r.cols[EVER_DELINQUENT][i] == Num(1.0) <==> OrZero(c30) + OrZero(c60) + OrZero(c90) > 0.0)
            && (r.cols[EVER_90_DAYS_LATE][i] == Num(1.0) || r.cols[EVER_90_DAYS_LATE][i] == Num(0.0))
            && (r.cols[EVER_90_DAYS_LATE][i] == Num(1.0) <==> c90.Num? && c90.v > 0.0)
            && (r.cols[MULTIPLE_DELINQUENCY][i] == Num(1.0) || r.cols[MULTIPLE_DELINQUENCY][i] == Num(0.0))
            && (r.cols[MULTIPLE_DELINQUENCY][i] == Num(1.0) <==> OrZero(c30) + OrZero(c60) + OrZero(c90) >= 2.0)
            && (r.cols[SEVERITY_SCORE][i].Num? <==> c30.Num? && c60.Num? && c90.Num?)
            && (r.cols[SEVERITY_SCORE][i].Num? ==> r.cols[SEVERITY_SCORE][i].v == c30.v + 2.0 * c60.v + 3.0 * c90.v)
  {
    DelinquencyAgrees(t);
    Preprocessing.DelinquencyFlags(t, i);
    Preprocessing.SeverityScore(t, i);
  }

  /** A row flagged for multiple delinquencies is flagged as delinquent. */
  lemma MultipleImpliesEver(t: Table, i: nat)
    requires t.Valid() && i < t.rows && DelinquencyFeatures(t).Ok?
    ensures var r := DelinquencyFeatures(t).value;
            MULTIPLE_DELINQUENCY in r.cols && EVER_DELINQUENT in r.cols
            && (r.cols[MULTIPLE_DELINQUENCY][i] == Num(1.0) ==> r.cols[EVER_DELINQUENT][i] == Num(1.0))
  {
    DelinquencyRows(t, i);
  }

  lemma DelinquencyExtends(t: Table)
    requires t.Valid() && DelinquencyFeatures(t).Ok?
    ensures Extends(t, DelinquencyFeatures(t).value, Preprocessing.DELINQUENCY_OUTPUTS)
  {
    DelinquencyAgrees(t);
    Preprocessing.DelinquencyExtends(t);
  }

  // ---------------------------------------------------------------------
  // Properties of add_utilization_interactions
  // ---------------------------------------------------------------------

  const UTILIZATION_OUTPUTS: set<string> :=
    {TOTAL_DELINQUENCY, DELINQ_X_UTILIZATION, UTILIZATION_X_DEBT, HIGH_UTILIZATION_FLAG, HIGH_UTIL_X_DEBT}

  lemma UtilizationWritesColumns(t: Table, util: seq<Cell>, debt: seq<Cell>)
    requires t.Valid() && TOTAL_DELINQUENCY in t.cols && |util| == t.rows && |debt| == t.rows
    ensures var r := UtilizationWrites(t, util, debt);
            && UTILIZATION_OUTPUTS <= r.cols.Keys
            && r.cols[TOTAL_DELINQUENCY] == t.cols[TOTAL_DELINQUENCY]
            && r.cols[DELINQ_X_UTILIZATION] == ProductColumn(t.cols[TOTAL_DELINQUENCY], util)
            && r.cols[UTILIZATION_X_DEBT] == ProductColumn(util, debt)
            && r.cols[HIGH_UTILIZATION_FLAG] == AboveColumn(util, 1.0)
            && r.cols[HIGH_UTIL_X_DEBT] == ProductColumn(AboveColumn(util, 1.0), debt)
            && Extends(t, r, UTILIZATION_OUTPUTS)
  {
    var w := UTILIZATION_OUTPUTS;
    var t1 := t.With(DELINQ_X_UTILIZATION, ProductColumn(t.cols[TOTAL_DELINQUENCY], util));
    var t2 := t1.With(UTILIZATION_X_DEBT, ProductColumn(util, debt));
    var t3 := t2.With(HIGH_UTILIZATION_FLAG, AboveColumn(util, 1.0));
    ExtendsRefl(t, w);
    ExtendsWith(t, t, DELINQ_X_UTILIZATION, ProductColumn(t.cols[TOTAL_DELINQUENCY], util), w);
    ExtendsWith(t, t1, UTILIZATION_X_DEBT, ProductColumn(util, debt), w);
    ExtendsWith(t, t2, HIGH_UTILIZATION_FLAG, AboveColumn(util, 1.0), w);
    ExtendsWith(t, t3, HIGH_UTIL_X_DEBT, ProductColumn(t3.cols[HIGH_UTILIZATION_FLAG], debt), w);
  }

  /** A successful utilisation step is the four writes on the frame that
      has its total. */
  lemma UtilizationOkParts(t: Table)
    requires t.Valid() && UtilizationInteractions(t).Ok?
    ensures HasUtilizationInputs(t) && TotalIfAbsent(t).Ok?
    ensures UtilizationInteractions(t)
         == Ok(UtilizationWrites(TotalIfAbsent(t).value, OrZeroColumn(t.cols[UTILIZATION]), OrZeroColumn(t.cols[DEBT_RATIO])))
  {
    UtilizationInteractionsOk(t, TotalIfAbsent(t).value);
  }

  lemma UtilizationColumns(t: Table)
    requires t.Valid() && UtilizationInteractions(t).Ok?
    ensures var r := UtilizationInteractions(t).value;
            var util := OrZeroColumn(t.cols[UTILIZATION]);
            var debt := OrZeroColumn(t.cols[DEBT_RATIO]);
            && UTILIZATION_OUTPUTS <= r.cols.Keys
            && |r.cols[TOTAL_DELINQUENCY]| == t.rows
            && r.cols[DELINQ_X_UTILIZATION] == ProductColumn(r.cols[TOTAL_DELINQUENCY], util)
            && r.cols[UTILIZATION_X_DEBT] == ProductColumn(util, debt)
            && r.cols[HIGH_UTILIZATION_FLAG] == AboveColumn(util, 1.0)
            && r.cols[HIGH_UTIL_X_DEBT] == ProductColumn(AboveColumn(util, 1.0), debt)
  {
    UtilizationOkParts(t);
    UtilizationWritesColumns(TotalIfAbsent(t).value, OrZeroColumn(t.cols[UTILIZATION]), OrZeroColumn(t.cols[DEBT_RATIO]));
  }

  /** One row of the utilisation products, gaps read as 0. */
  lemma UtilizationProductRow(t: Table, r: Table, i: nat)
    requires t.Valid() && i < t.rows && UtilizationInteractions(t) == Ok(r)
    ensures UTILIZATION_OUTPUTS <= r.cols.Keys
    ensures var u := OrZero(t.cols[UTILIZATION][i]);
            var d := OrZero(t.cols[DEBT_RATIO][i]);
            && r.cols[UTILIZATION_X_DEBT][i] == Product(Num(u), Num(d))
            && r.cols[DELINQ_X_UTILIZATION][i] == Product(r.cols[TOTAL_DELINQUENCY][i], Num(u))
  {
    var util := OrZeroColumn(t.cols[UTILIZATION]);
    var debt := OrZeroColumn(t.cols[DEBT_RATIO]);
    assert UTILIZATION_OUTPUTS <= r.cols.Keys && |r.cols[TOTAL_DELINQUENCY]| == t.rows
        && r.cols[UTILIZATION_X_DEBT] == ProductColumn(util, debt)
        && r.cols[DELINQ_X_UTILIZATION] == ProductColumn(r.cols[TOTAL_DELINQUENCY], util) by {
      UtilizationColumns(t);
    }
    ProductCells(r.cols[TOTAL_DELINQUENCY], util, debt, i, OrZero(t.cols[UTILIZATION][i]), OrZero(t.cols[DEBT_RATIO][i]));
  }

  /** One row of the utilisation flag, gaps read as 0: the flag is set
      exactly when utilisation is strictly above 1, and the flagged product
      is 0 on every row the flag leaves unset. */
  lemma UtilizationFlagRow(t: Table, r: Table, i: nat)
    requires t.Valid() && i < t.rows && UtilizationInteractions(t) == Ok(r)
    ensures UTILIZATION_OUTPUTS <= r.cols.Keys
    ensures var u := OrZero(t.cols[UTILIZATION][i]);
            var d := OrZero(t.cols[DEBT_RATIO][i]);
            var flag := r.cols[HIGH_UTILIZATION_FLAG][i];
            && (flag == Num(1.0) || flag == Num(0.0))
            && (flag == Num(1.0) <==> u > 1.0)
            && (flag == Num(0.0) ==> r.cols[HIGH_UTIL_X_DEBT][i] == Num(0.0))
            && (flag == Num(1.0) ==> r.cols[HIGH_UTIL_X_DEBT][i] == Num(d))
  {
    UtilizationColumns(t);
    var util := OrZeroColumn(t.cols[UTILIZATION]);
    var debt := OrZeroColumn(t.cols[DEBT_RATIO]);
    FlagCells(util, debt, i, OrZero(t.cols[UTILIZATION][i]), OrZero(t.cols[DEBT_RATIO][i]));
  }

  lemma ProductCells(total: seq<Cell>, util: seq<Cell>, debt: seq<Cell>, i: nat, u: real, d: real)
    requires |total| == |util| == |debt| && i < |util| && util[i] == Num(u) && debt[i] == Num(d)
    ensures ProductColumn(util, debt)[i] == Product(Num(u), Num(d))
    ensures ProductColumn(total, util)[i] == Product(total[i], Num(u))
  {
  }

  lemma FlagCells(util: seq<Cell>, debt: seq<Cell>, i: nat, u: real, d: real)
    requires |util| == |debt| && i < |util| && util[i] == Num(u) && debt[i] == Num(d)
    ensures var flag := AboveColumn(util, 1.0)[i];
            && (flag == Num(1.0) || flag == Num(0.0))
            && (flag == Num(1.0) <==> u > 1.0)
            && (flag == Num(0.0) ==> ProductColumn(AboveColumn(util, 1.0), debt)[i] == Num(0.0))
            && (flag == Num(1.0) ==> ProductColumn(AboveColumn(util, 1.0), debt)[i] == Num(d))
  {
  }

  /** An existing `TotalDelinquency` column is used as it is. */
  lemma TotalReused(t: Table)
    requires t.Valid() && TOTAL_DELINQUENCY in t.cols && UtilizationInteractions(t).Ok?
    ensures TOTAL_DELINQUENCY in UtilizationInteractions(t).value.cols
    ensures UtilizationInteractions(t).value.cols[TOTAL_DELINQUENCY] == t.cols[TOTAL_DELINQUENCY]
  {
    UtilizationOkParts(t);
    UtilizationWritesColumns(t, OrZeroColumn(t.cols[UTILIZATION]), OrZeroColumn(t.cols[DEBT_RATIO]));
  }

  /** A missing `TotalDelinquency` is the row sum of the counts. */
  lemma TotalComputed(t: Table, i: nat)
    requires t.Valid() && i < t.rows && TOTAL_DELINQUENCY !in t.cols && UtilizationInteractions(t).Ok?
    ensures Preprocessing.HasDelinquencyCounts(t)
    ensures TOTAL_DELINQUENCY in UtilizationInteractions(t).value.cols
    ensures UtilizationInteractions(t).value.cols[TOTAL_DELINQUENCY][i]
         == Num(OrZero(t.cols[PAST_DUE_30_59][i]) + OrZero(t.cols[PAST_DUE_60_89][i]) + OrZero(t.cols[LATE_90][i]))
  {
    assert Preprocessing.HasDelinquencyCounts(t) && TOTAL_DELINQUENCY in UtilizationInteractions(t).value.cols
        && UtilizationInteractions(t).value.cols[TOTAL_DELINQUENCY]
           == SumColumn(t.cols[PAST_DUE_30_59], t.cols[PAST_DUE_60_89], t.cols[LATE_90]) by {
      UtilizationOkParts(t);
      var w := TotalIfAbsent(t).value;
      assert w == t.With(TOTAL_DELINQUENCY, SumColumn(t.cols[PAST_DUE_30_59], t.cols[PAST_DUE_60_89], t.cols[LATE_90]));
      UtilizationWritesColumns(w, OrZeroColumn(t.cols[UTILIZATION]), OrZeroColumn(t.cols[DEBT_RATIO]));
    }
  }

  lemma UtilizationExtends(t: Table)
    requires t.Valid() && UtilizationInteractions(t).Ok?
    ensures Extends(t, UtilizationInteractions(t).value, UTILIZATION_OUTPUTS)
  {
    UtilizationOkParts(t);
    var w := TotalIfAbsent(t).value;
    UtilizationWritesColumns(w, OrZeroColumn(t.cols[UTILIZATION]), OrZeroColumn(t.cols[DEBT_RATIO]));
    ExtendsWiden(t, w, {TOTAL_DELINQUENCY}, UTILIZATION_OUTPUTS);
    ExtendsTrans(t, w, UtilizationInteractions(t).value, UTILIZATION_OUTPUTS);
  }

  lemma ExtendsWiden(t: Table, r: Table, a: set<string>, b: set<string>)
    requires Extends(t, r, a) && a <= b
    ensures Extends(t, r, b)
  {
  }

  // ---------------------------------------------------------------------
  // Properties of add_debt_exposure_features
  // ---------------------------------------------------------------------

  const EXPOSURE_OUTPUTS: set<string> :=
    {EFFECTIVE_DEBT_LOAD, REAL_ESTATE_EXPOSURE, FINANCIAL_STRESS, CREDIT_LINE_DENSITY, HIGH_DEBT_FLAG}

  /** No exposure output overwrites another one or an input a later write
      reads. */
  lemma ExposureNames()
    ensures EFFECTIVE_DEBT_LOAD != REAL_ESTATE_EXPOSURE && EFFECTIVE_DEBT_LOAD != FINANCIAL_STRESS
    ensures EFFECTIVE_DEBT_LOAD != CREDIT_LINE_DENSITY && EFFECTIVE_DEBT_LOAD != HIGH_DEBT_FLAG
    ensures REAL_ESTATE_EXPOSURE != FINANCIAL_STRESS && REAL_ESTATE_EXPOSURE != CREDIT_LINE_DENSITY
    ensures REAL_ESTATE_EXPOSURE != HIGH_DEBT_FLAG && FINANCIAL_STRESS != CREDIT_LINE_DENSITY
    ensures FINANCIAL_STRESS != HIGH_DEBT_FLAG && CREDIT_LINE_DENSITY != HIGH_DEBT_FLAG
    ensures REAL_ESTATE_LOANS !in EXPOSURE_OUTPUTS && UTILIZATION !in EXPOSURE_OUTPUTS
    ensures OPEN_CREDIT_LINES !in EXPOSURE_OUTPUTS && AGE !in EXPOSURE_OUTPUTS
    ensures DEBT_TO_INCOME !in EXPOSURE_OUTPUTS && DEBT_RATIO !in EXPOSURE_OUTPUTS
    ensures MONTHLY_INCOME !in EXPOSURE_OUTPUTS
  {
  }

  /** The load columns of the exposure step, computed from the inputs with
      gaps read as 0; the optional one is written exactly when its input is
      there (or it was there already). */
  lemma ExposureLoadColumns(t: Table, r: Table)
    requires t.Valid() && DebtExposureFeatures(t) == Ok(r)
    ensures HasExposureInputs(t)
    ensures var debt := OrZeroColumn(t.cols[DEBT_RATIO]);
            && EFFECTIVE_DEBT_LOAD in r.cols
            && r.cols[EFFECTIVE_DEBT_LOAD] == ProductColumn(debt, OrZeroColumn(t.cols[MONTHLY_INCOME]))
            && (REAL_ESTATE_EXPOSURE in r.cols <==> REAL_ESTATE_LOANS in t.cols || REAL_ESTATE_EXPOSURE in t.cols)
            && (REAL_ESTATE_LOANS in t.cols ==>
                  r.cols[REAL_ESTATE_EXPOSURE] == ProductColumn(OrZeroColumn(t.cols[REAL_ESTATE_LOANS]), debt))
            && (FINANCIAL_STRESS in r.cols <==> UTILIZATION in t.cols || FINANCIAL_STRESS in t.cols)
            && (UTILIZATION in t.cols ==>
                  r.cols[FINANCIAL_STRESS] == Log1pColumn(ProductColumn(debt, OrZeroColumn(t.cols[UTILIZATION]))))
  {
    ExposureNames();
    var debt := OrZeroColumn(t.cols[DEBT_RATIO]);
    var t1 := t.With(EFFECTIVE_DEBT_LOAD, ProductColumn(debt, OrZeroColumn(t.cols[MONTHLY_INCOME])));
    var t2 := RealEstateStep(t1, debt);
    var t3 := StressStep(t2, debt);
    var t4 := DensityStep(t3);
    assert r == HighDebtStep(t4);
  }

  /** The density and flag columns of the exposure step, each written
      exactly when its inputs are there (or it was there already). */
  lemma ExposureRatioColumns(t: Table, r: Table)
    requires t.Valid() && DebtExposureFeatures(t) == Ok(r)
    ensures (CREDIT_LINE_DENSITY in r.cols <==>
               (OPEN_CREDIT_LINES in t.cols && AGE in t.cols) || CREDIT_LINE_DENSITY in t.cols)
    ensures OPEN_CREDIT_LINES in t.cols && AGE in t.cols ==>
              r.cols[CREDIT_LINE_DENSITY] == SafeRatioColumn(OrZeroColumn(t.cols[OPEN_CREDIT_LINES]), t.cols[AGE])
    ensures HIGH_DEBT_FLAG in r.cols <==> DEBT_TO_INCOME in t.cols || HIGH_DEBT_FLAG in t.cols
    ensures DEBT_TO_INCOME in t.cols ==>
              r.cols[HIGH_DEBT_FLAG] == AboveColumn(OrZeroColumn(t.cols[DEBT_TO_INCOME]), HIGH_DEBT_THRESHOLD)
  {
    ExposureNames();
    var debt := OrZeroColumn(t.cols[DEBT_RATIO]);
    var t1 := t.With(EFFECTIVE_DEBT_LOAD, ProductColumn(debt, OrZeroColumn(t.cols[MONTHLY_INCOME])));
    var t2 := RealEstateStep(t1, debt);
    var t3 := StressStep(t2, debt);
    var t4 := DensityStep(t3);
    if OPEN_CREDIT_LINES in t.cols && AGE in t.cols {
      assert t3.cols[OPEN_CREDIT_LINES] == t.cols[OPEN_CREDIT_LINES] && t3.cols[AGE] == t.cols[AGE];
    }
    if DEBT_TO_INCOME in t.cols {
      assert t4.cols[DEBT_TO_INCOME] == t.cols[DEBT_TO_INCOME];
    }
    assert r == HighDebtStep(t4);
  }

  /** The exposure step writes only its five names: no row and no column is
      lost, and every other column keeps its cells. */
  lemma ExposureExtends(t: Table)
    requires t.Valid() && DebtExposureFeatures(t).Ok?
    ensures Extends(t, DebtExposureFeatures(t).value, EXPOSURE_OUTPUTS)
  {
    var w := EXPOSURE_OUTPUTS;
    var debt := OrZeroColumn(t.cols[DEBT_RATIO]);
    var t1 := t.With(EFFECTIVE_DEBT_LOAD, ProductColumn(debt, OrZeroColumn(t.cols[MONTHLY_INCOME])));
    WithExtends(t, EFFECTIVE_DEBT_LOAD, ProductColumn(debt, OrZeroColumn(t.cols[MONTHLY_INCOME])), w);
    var t2 := RealEstateStep(t1, debt);
    if REAL_ESTATE_LOANS in t1.cols {
      ExtendsWith(t, t1, REAL_ESTATE_EXPOSURE, ProductColumn(OrZeroColumn(t1.cols[REAL_ESTATE_LOANS]), debt), w);
    }
    var t3 := StressStep(t2, debt);
    if UTILIZATION in t2.cols {
      ExtendsWith(t, t2, FINANCIAL_STRESS, Log1pColumn(ProductColumn(debt, OrZeroColumn(t2.cols[UTILIZATION]))), w);
    }
    var t4 := DensityStep(t3);
    if OPEN_CREDIT_LINES in t3.cols && AGE in t3.cols {
      ExtendsWith(t, t3, CREDIT_LINE_DENSITY, SafeRatioColumn(OrZeroColumn(t3.cols[OPEN_CREDIT_LINES]), t3.cols[AGE]), w);
    }
    if DEBT_TO_INCOME in t4.cols {
      ExtendsWith(t, t4, HIGH_DEBT_FLAG, AboveColumn(OrZeroColumn(t4.cols[DEBT_TO_INCOME]), HIGH_DEBT_THRESHOLD), w);
    }
  }

  /** One row of the load columns, gaps read as 0. */
  lemma ExposureLoadRow(t: Table, r: Table, i: nat)
    requires t.Valid() && i < t.rows && DebtExposureFeatures(t) == Ok(r)
    ensures EFFECTIVE_DEBT_LOAD in r.cols
    ensures var d := OrZero(t.cols[DEBT_RATIO][i]);
            && r.cols[EFFECTIVE_DEBT_LOAD][i] == Product(Num(d), Num(OrZero(t.cols[MONTHLY_INCOME][i])))
            && (REAL_ESTATE_LOANS in t.cols ==>
                  REAL_ESTATE_EXPOSURE in r.cols
                  && r.cols[REAL_ESTATE_EXPOSURE][i] == Product(Num(OrZero(t.cols[REAL_ESTATE_LOANS][i])), Num(d)))
            && (UTILIZATION in t.cols ==>
                  FINANCIAL_STRESS in r.cols
                  && r.cols[FINANCIAL_STRESS][i] == Log1pOf(Product(Num(d), Num(OrZero(t.cols[UTILIZATION][i])))))
  {
    ExposureLoadColumns(t, r);
    var debt := OrZeroColumn(t.cols[DEBT_RATIO]);
    assert debt[i] == Num(OrZero(t.cols[DEBT_RATIO][i]));
    if UTILIZATION in t.cols {
      var util := OrZeroColumn(t.cols[UTILIZATION]);
      assert util[i] == Num(OrZero(t.cols[UTILIZATION][i]));
    }
  }

  /** One row of `CreditLineDensity`: always a number; where the age is a
      non-zero number it times the age gives the open lines (gaps as 0),
      everywhere else it is 0. */
  lemma DensityRow(t: Table, r: Table, i: nat)
    requires t.Valid() && i < t.rows && DebtExposureFeatures(t) == Ok(r)
    requires OPEN_CREDIT_LINES in t.cols && AGE in t.cols
    ensures CREDIT_LINE_DENSITY in r.cols
    ensures var age := t.cols[AGE][i];
            var q := r.cols[CREDIT_LINE_DENSITY][i];
            && q.Num?
            && (age.Num? && age.v != 0.0 ==> Undoes(q, age, Num(OrZero(t.cols[OPEN_CREDIT_LINES][i]))))
            && (!(age.Num? && age.v != 0.0) ==> q == Num(0.0))
  {
    ExposureRatioColumns(t, r);
    assert r.cols[CREDIT_LINE_DENSITY][i] == SafeRatio(Num(OrZero(t.cols[OPEN_CREDIT_LINES][i])), t.cols[AGE][i]);
  }

  /** One row of `HighDebtFlag`: 0 or 1, and 1 exactly when the ratio
      (gaps as 0) is strictly above 0.4. */
  lemma HighDebtRow(t: Table, r: Table, i: nat)
    requires t.Valid() && i < t.rows && DebtExposureFeatures(t) == Ok(r) && DEBT_TO_INCOME in t.cols
    ensures HIGH_DEBT_FLAG in r.cols
    ensures var flag := r.cols[HIGH_DEBT_FLAG][i];
            && (flag == Num(1.0) || flag == Num(0.0))
            && (flag == Num(1.0) <==> OrZero(t.cols[DEBT_TO_INCOME][i]) > 0.4)
  {
    ExposureRatioColumns(t, r);
    assert OrZeroColumn(t.cols[DEBT_TO_INCOME])[i] == Num(OrZero(t.cols[DEBT_TO_INCOME][i]));
  }

  // ---------------------------------------------------------------------
  // Properties of add_income_bins
  // ---------------------------------------------------------------------

  /** The default income segments, closed on the left: [0, 3000),
      [3000, 6000), [6000, 10000), [10000, inf); a negative income gets
      none. */
  function IncomeTier(x: real): Cell
  {
    if x < 0.0 then Missing
    else if x < 3000.0 then Label("0-3k")
    else if x < 6000.0 then Label("3-6k")
    else if x < 10000.0 then Label("6-10k")
    else Label("10k+")
  }

  lemma IncomeTierIsCut(x: real)
    ensures Binning.CutCell(Num(x), Preprocessing.INCOME_EDGES, Preprocessing.INCOME_LABELS, false) == IncomeTier(x)
  {
    var e := Preprocessing.INCOME_EDGES;
    assert Binning.Increasing(e);
    Binning.CutCellIsInterval(x, e, Preprocessing.INCOME_LABELS, false);
    if x >= 0.0 {
      var i := if x < 3000.0 then 0 else if x < 6000.0 then 1 else if x < 10000.0 then 2 else 3;
      assert Binning.InBin(x, e, i, false);
    }
  }

  /** One row of `IncomeBin`: the segment of the income, a missing income
      counting as 0; so every row whose income is missing or not negative
      gets a label. */
  lemma IncomeBinRow(t: Table, r: Table, i: nat)
    requires t.Valid() && i < t.rows && IncomeBins(t) == Ok(r)
    ensures INCOME_BIN in r.cols
    ensures r.cols[INCOME_BIN][i] == IncomeTier(OrZero(t.cols[MONTHLY_INCOME][i]))
    ensures r.cols[INCOME_BIN][i].Label? <==> OrZero(t.cols[MONTHLY_INCOME][i]) >= 0.0
  {
    var x := OrZero(t.cols[MONTHLY_INCOME][i]);
    assert OrZeroColumn(t.cols[MONTHLY_INCOME])[i] == Num(x);
    IncomeTierIsCut(x);
  }

  lemma IncomeBinsExtends(t: Table)
    requires t.Valid() && IncomeBins(t).Ok?
    ensures Extends(t, IncomeBins(t).value, {INCOME_BIN})
  {
    WithExtends(t, INCOME_BIN, IncomeBinColumn(t.cols[MONTHLY_INCOME]), {INCOME_BIN});
  }

  // ---------------------------------------------------------------------
  // Properties of apply_all_feature_engineering
  // ---------------------------------------------------------------------

  const ALL_OUTPUTS: set<string> :=
    Preprocessing.DELINQUENCY_OUTPUTS + UTILIZATION_OUTPUTS + EXPOSURE_OUTPUTS + {INCOME_BIN}

  /** No step writes a column a later step requires. */
  lemma InputsNotWritten()
    ensures UTILIZATION !in Preprocessing.DELINQUENCY_OUTPUTS && DEBT_RATIO !in Preprocessing.DELINQUENCY_OUTPUTS
    ensures MONTHLY_INCOME !in Preprocessing.DELINQUENCY_OUTPUTS
    ensures DEBT_RATIO !in UTILIZATION_OUTPUTS && MONTHLY_INCOME !in UTILIZATION_OUTPUTS
    ensures MONTHLY_INCOME !in EXPOSURE_OUTPUTS
  {
  }

  /** The chain succeeds exactly when the raw frame has the three counts,
      utilisation, debt ratio and monthly income; every other column the
      steps need is either written by an earlier step or optional. */
  lemma AllOkIff(t: Table)
    requires t.Valid()
    ensures AllFeatureEngineering(t).Ok? <==>
              Preprocessing.HasDelinquencyCounts(t) && UTILIZATION in t.cols && DEBT_RATIO in t.cols && MONTHLY_INCOME in t.cols
  {
    InputsNotWritten();
    if DelinquencyFeatures(t).Ok? {
      var a := DelinquencyFeatures(t).value;
      DelinquencyExtends(t);
      assert TOTAL_DELINQUENCY in a.cols;
      if UtilizationInteractions(a).Ok? {
        var b := UtilizationInteractions(a).value;
        UtilizationExtends(a);
        if DebtExposureFeatures(b).Ok? {
          ExposureExtends(b);
        }
      }
    }
  }

  /** The whole chain only adds or rewrites its own outputs: no row and no
      column is lost, existing columns keep their place and every other
      column keeps its cells. */
  lemma AllExtends(t: Table)
    requires t.Valid() && AllFeatureEngineering(t).Ok?
    ensures Extends(t, AllFeatureEngineering(t).value, ALL_OUTPUTS)
  {
    var w := ALL_OUTPUTS;
    var a := DelinquencyFeatures(t).value;
    var b := UtilizationInteractions(a).value;
    var c := DebtExposureFeatures(b).value;
    DelinquencyExtends(t);
    ExtendsWiden(t, a, Preprocessing.DELINQUENCY_OUTPUTS, w);
    UtilizationExtends(a);
    ExtendsWiden(a, b, UTILIZATION_OUTPUTS, w);
    ExposureExtends(b);
    ExtendsWiden(b, c, EXPOSURE_OUTPUTS, w);
    IncomeBinsExtends(c);
    ExtendsWiden(c, IncomeBins(c).value, {INCOME_BIN}, w);
    ExtendsTrans(t, a, b, w);
    ExtendsTrans(t, b, c, w);
    ExtendsTrans(t, c, IncomeBins(c).value, w);
  }
}

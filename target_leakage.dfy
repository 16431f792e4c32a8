/** Why the training label cannot leak into a prediction through the
    preparation pipeline: every stage of `src/data_preprocessing.py` leaves a
    column it neither reads nor writes exactly where it was, so dropping such a
    column before preparing a batch gives the same table as dropping it after. */
module TargetLeakage {
  import opened Basics
  import opened Frames
  import opened Schema
  import Stats
  import Binning
  import opened Preprocessing

  // The columns each stage reads (its outputs are the *_OUTPUTS sets).
  const CORE_NUMERIC_INPUTS: set<string> := {UTILIZATION, DEBT_RATIO, MONTHLY_INCOME}
  const DELINQUENCY_INPUTS: set<string> := {PAST_DUE_30_59, PAST_DUE_60_89, LATE_90}
  const RISK_FLAG_INPUTS: set<string> := {DEBT_TO_INCOME}
  const BINNING_INPUTS: set<string> := {AGE, MONTHLY_INCOME, UTILIZATION, TOTAL_DELINQUENCY}
  const INTERACTION_INPUTS: set<string> :=
    {UTILIZATION, DEBT_RATIO, MONTHLY_INCOME, AGE, TOTAL_DELINQUENCY, OPEN_CREDIT_LINES, REAL_ESTATE_LOANS, HIGH_UTILIZATION_FLAG}
  const DOMAIN_INPUTS: set<string> :=
    {DEBT_RATIO, MONTHLY_INCOME, OPEN_CREDIT_LINES, AGE, REAL_ESTATE_LOANS, UTILIZATION}

  /** Every column name some stage of prepare_training reads or writes. */
  const PIPELINE_COLUMNS: set<string> :=
    {INDEX_COL, AGE, DEPENDENTS, PAST_DUE_30_59, PAST_DUE_60_89, LATE_90}
    + CORE_NUMERIC_INPUTS + CORE_NUMERIC_OUTPUTS
    + DELINQUENCY_OUTPUTS + RISK_FLAG_INPUTS + RISK_FLAG_OUTPUTS
    + BINNING_INPUTS + BINNING_OUTPUTS
    + INTERACTION_INPUTS + INTERACTION_OUTPUTS
    + DOMAIN_INPUTS + DOMAIN_OUTPUTS

  // ---------------------------------------------------------------------
  // Dropping a column commutes with each column-writing step
  // ---------------------------------------------------------------------

  lemma Log1pFeatureWithout(t: Table, c: string, src: string, out: string)
    requires t.Valid() && c != src && c != out
    ensures Log1pFeature(t.Without(c), src, out) == Log1pFeature(t, src, out).Without(c)
  {
    if src in t.cols {
      WithoutWith(t, c, out, Log1pColumn(t.cols[src]));
    }
  }

  lemma RatioFeatureWithout(t: Table, c: string, num: string, den: string, out: string)
    requires t.Valid() && c != num && c != den && c != out
    ensures RatioFeature(t.Without(c), num, den, out) == RatioFeature(t, num, den, out).Without(c)
  {
    if num in t.cols && den in t.cols {
      WithoutWith(t, c, out, SafeRatioColumn(t.cols[num], t.cols[den]));
    }
  }

  lemma ProductFeatureWithout(t: Table, c: string, a: string, b: string, out: string)
    requires t.Valid() && c != a && c != b && c != out
    ensures ProductFeature(t.Without(c), a, b, out) == ProductFeature(t, a, b, out).Without(c)
  {
    if a in t.cols && b in t.cols {
      WithoutWith(t, c, out, ProductColumn(t.cols[a], t.cols[b]));
    }
  }

  lemma BinFeatureWithout(t: Table, c: string, src: string, out: string, edges: seq<real>, labels: seq<string>, rightClosed: bool)
    requires t.Valid() && |labels| == |edges| && c != src && c != out
    ensures BinFeature(t.Without(c), src, out, edges, labels, rightClosed)
         == BinFeature(t, src, out, edges, labels, rightClosed).Without(c)
  {
    if src in t.cols {
      WithoutWith(t, c, out, Binning.Cut(t.cols[src], edges, labels, rightClosed));
    }
  }

  // ---------------------------------------------------------------------
  // ... and so with each stage
  // ---------------------------------------------------------------------

  lemma CleanedWithout(t: Table, c: string)
    requires c != INDEX_COL
    ensures Cleaned(t.Without(c)) == Cleaned(t).Without(c)
  {
    KeepKeep(t.names, {c}, {INDEX_COL});
    KeepKeep(t.names, {INDEX_COL}, {c});
    assert {c} + {INDEX_COL} == {INDEX_COL} + {c};
    var l := Cleaned(t.Without(c));
    var r := Cleaned(t).Without(c);
    assert l.names == r.names;
    SameMaps(l.cols, r.cols);
  }

  lemma CoreNumericWithout(t: Table, c: string)
    requires t.Valid() && c !in CORE_NUMERIC_INPUTS && c !in CORE_NUMERIC_OUTPUTS
    ensures CoreNumericFeatures(t.Without(c)) == CoreNumericFeatures(t).Without(c)
  {
    var t1 := Log1pFeature(t, UTILIZATION, UTILIZATION_LOG1P);
    var t2 := Log1pFeature(t1, DEBT_RATIO, DEBT_RATIO_LOG1P);
    var t3 := Log1pFeature(t2, MONTHLY_INCOME, INCOME_LOG1P);
    var t4 := RatioFeature(t3, DEBT_RATIO, MONTHLY_INCOME, DEBT_TO_INCOME);
    Log1pFeatureWithout(t, c, UTILIZATION, UTILIZATION_LOG1P);
    Log1pFeatureWithout(t1, c, DEBT_RATIO, DEBT_RATIO_LOG1P);
    Log1pFeatureWithout(t2, c, MONTHLY_INCOME, INCOME_LOG1P);
    RatioFeatureWithout(t3, c, DEBT_RATIO, MONTHLY_INCOME, DEBT_TO_INCOME);
    UtilizationFlagWithout(t4, c);
  }

  lemma UtilizationFlagWithout(t: Table, c: string)
    requires t.Valid() && c != UTILIZATION && c != HIGH_UTILIZATION_FLAG
    ensures var u := t.Without(c);
      (if UTILIZATION in u.cols then u.With(HIGH_UTILIZATION_FLAG, AtLeastColumn(u.cols[UTILIZATION], 1.0)) else u)
      == (if UTILIZATION in t.cols then t.With(HIGH_UTILIZATION_FLAG, AtLeastColumn(t.cols[UTILIZATION], 1.0)) else t).Without(c)
  {
    if UTILIZATION in t.cols {
      WithoutWith(t, c, HIGH_UTILIZATION_FLAG, AtLeastColumn(t.cols[UTILIZATION], 1.0));
    }
  }

  /** `df.get(name, 0)` does not see a dropped column of another name. */
  lemma GetOrWithout(t: Table, c: string, name: string)
    requires t.Valid() && c != name
    ensures GetOr(t.Without(c), name) == GetOr(t, name)
  {
  }

  lemma DelinquencyFlagStageWithout(t: Table, c: string)
    requires t.Valid() && c !in DELINQUENCY_INPUTS && c !in DELINQUENCY_OUTPUTS
    ensures DelinquencyFlagStage(t.Without(c)) == DelinquencyFlagStage(t).Without(c)
  {
    var total := TotalColumn(t);
    assert TotalColumn(t.Without(c)) == total;
    var t1 := t.With(TOTAL_DELINQUENCY, total);
    WithoutWith(t, c, TOTAL_DELINQUENCY, total);
    var ever := AboveColumn(t1.cols[TOTAL_DELINQUENCY], 0.0);
    var t2 := t1.With(EVER_DELINQUENT, ever);
    WithoutWith(t1, c, EVER_DELINQUENT, ever);
    var late := if LATE_90 in t2.cols then AboveColumn(t2.cols[LATE_90], 0.0) else Const(t2.rows, Num(0.0));
    var t3 := t2.With(EVER_90_DAYS_LATE, late);
    WithoutWith(t2, c, EVER_90_DAYS_LATE, late);
    var multiple := AtLeastColumn(t3.cols[TOTAL_DELINQUENCY], 2.0);
    WithoutWith(t3, c, MULTIPLE_DELINQUENCY, multiple);
  }

  lemma DelinquencyWithout(t: Table, c: string)
    requires t.Valid() && c !in DELINQUENCY_INPUTS && c !in DELINQUENCY_OUTPUTS
    ensures DelinquencyFeatures(t.Without(c)) == DelinquencyFeatures(t).Without(c)
  {
    var t4 := DelinquencyFlagStage(t);
    DelinquencyFlagStageWithout(t, c);
    GetOrWithout(t4, c, PAST_DUE_30_59);
    GetOrWithout(t4, c, PAST_DUE_60_89);
    GetOrWithout(t4, c, LATE_90);
    WithoutWith(t4, c, SEVERITY_SCORE,
      SeverityColumn(GetOr(t4, PAST_DUE_30_59), GetOr(t4, PAST_DUE_60_89), GetOr(t4, LATE_90)));
  }

  lemma RiskFlagsWithout(t: Table, c: string)
    requires t.Valid() && c !in RISK_FLAG_INPUTS && c !in RISK_FLAG_OUTPUTS
    ensures RiskFlags(t.Without(c)) == RiskFlags(t).Without(c)
  {
    if DEBT_TO_INCOME in t.cols {
      var ratio := t.cols[DEBT_TO_INCOME];
      WithoutWith(t, c, HIGH_DEBT_FLAG, QuantileFlagColumn(ratio, Stats.Quantile(Present(ratio), HIGH_DEBT_QUANTILE)));
    } else {
      WithoutWith(t, c, HIGH_DEBT_FLAG, Const(t.rows, Num(0.0)));
    }
  }

  lemma BinningWithout(t: Table, c: string)
    requires t.Valid() && c !in BINNING_INPUTS && c !in BINNING_OUTPUTS
    ensures BinningFeatures(t.Without(c)) == BinningFeatures(t).Without(c)
  {
    var t1 := BinFeature(t, AGE, AGE_BIN, AGE_EDGES, AGE_LABELS, true);
    var t2 := BinFeature(t1, MONTHLY_INCOME, INCOME_BIN, INCOME_EDGES, INCOME_LABELS, true);
    var t3 := BinFeature(t2, UTILIZATION, UTILIZATION_BIN, UTILIZATION_EDGES, UTILIZATION_LABELS, true);
    BinFeatureWithout(t, c, AGE, AGE_BIN, AGE_EDGES, AGE_LABELS, true);
    BinFeatureWithout(t1, c, MONTHLY_INCOME, INCOME_BIN, INCOME_EDGES, INCOME_LABELS, true);
    BinFeatureWithout(t2, c, UTILIZATION, UTILIZATION_BIN, UTILIZATION_EDGES, UTILIZATION_LABELS, true);
    BinFeatureWithout(t3, c, TOTAL_DELINQUENCY, DELINQ_BIN, DELINQ_EDGES, DELINQ_LABELS, false);
  }

  lemma InteractionWithout(t: Table, c: string)
    requires t.Valid() && c !in INTERACTION_INPUTS && c !in INTERACTION_OUTPUTS
    ensures InteractionFeatures(t.Without(c)) == InteractionFeatures(t).Without(c)
  {
    var t1 := ProductFeature(t, UTILIZATION, DEBT_RATIO, UTILIZATION_X_DEBT);
    var t2 := ProductFeature(t1, MONTHLY_INCOME, AGE, INCOME_X_AGE);
    var t3 := ProductFeature(t2, TOTAL_DELINQUENCY, UTILIZATION, DELINQ_X_UTILIZATION);
    var t4 := ProductFeature(t3, OPEN_CREDIT_LINES, REAL_ESTATE_LOANS, OPEN_LINES_X_REAL_ESTATE);
    ProductFeatureWithout(t, c, UTILIZATION, DEBT_RATIO, UTILIZATION_X_DEBT);
    ProductFeatureWithout(t1, c, MONTHLY_INCOME, AGE, INCOME_X_AGE);
    ProductFeatureWithout(t2, c, TOTAL_DELINQUENCY, UTILIZATION, DELINQ_X_UTILIZATION);
    ProductFeatureWithout(t3, c, OPEN_CREDIT_LINES, REAL_ESTATE_LOANS, OPEN_LINES_X_REAL_ESTATE);
    ProductFeatureWithout(t4, c, HIGH_UTILIZATION_FLAG, DEBT_RATIO, HIGH_UTIL_X_DEBT);
  }

  lemma DomainWithout(t: Table, c: string)
    requires t.Valid() && c !in DOMAIN_INPUTS && c !in DOMAIN_OUTPUTS
    ensures DomainFeatures(t.Without(c)) == DomainFeatures(t).Without(c)
  {
    var t1 := ProductFeature(t, DEBT_RATIO, MONTHLY_INCOME, EFFECTIVE_DEBT_LOAD);
    var t2 := RatioFeature(t1, OPEN_CREDIT_LINES, AGE, CREDIT_LINE_DENSITY);
    var t3 := ProductFeature(t2, REAL_ESTATE_LOANS, DEBT_RATIO, REAL_ESTATE_EXPOSURE);
    ProductFeatureWithout(t, c, DEBT_RATIO, MONTHLY_INCOME, EFFECTIVE_DEBT_LOAD);
    RatioFeatureWithout(t1, c, OPEN_CREDIT_LINES, AGE, CREDIT_LINE_DENSITY);
    ProductFeatureWithout(t2, c, REAL_ESTATE_LOANS, DEBT_RATIO, REAL_ESTATE_EXPOSURE);
    StressWithout(t3, c);
  }

  lemma StressWithout(t: Table, c: string)
    requires t.Valid() && c != DEBT_RATIO && c != UTILIZATION && c != FINANCIAL_STRESS
    ensures var u := t.Without(c);
      (if DEBT_RATIO in u.cols && UTILIZATION in u.cols
       then u.With(FINANCIAL_STRESS, Log1pColumn(ProductColumn(u.cols[DEBT_RATIO], u.cols[UTILIZATION]))) else u)
      == (if DEBT_RATIO in t.cols && UTILIZATION in t.cols
          then t.With(FINANCIAL_STRESS, Log1pColumn(ProductColumn(t.cols[DEBT_RATIO], t.cols[UTILIZATION]))) else t).Without(c)
  {
    if DEBT_RATIO in t.cols && UTILIZATION in t.cols {
      WithoutWith(t, c, FINANCIAL_STRESS, Log1pColumn(ProductColumn(t.cols[DEBT_RATIO], t.cols[UTILIZATION])));
    }
  }

  /** Selection drops its fixed list whatever else was dropped before. */
  lemma FeatureSelectionWithout(t: Table, c: string)
    ensures FeatureSelection(t.Without(c)) == FeatureSelection(t).Without(c)
  {
    var drop := set n | n in FINAL_DROP_COLS;
    KeepKeep(t.names, {c}, drop);
    KeepKeep(t.names, drop, {c});
    assert {c} + drop == drop + {c};
    var l := FeatureSelection(t.Without(c));
    var r := FeatureSelection(t).Without(c);
    assert l.names == r.names;
    SameMaps(l.cols, r.cols);
  }

  // ---------------------------------------------------------------------
  // The whole preparation
  // ---------------------------------------------------------------------

  /** Dropping a column no stage reads or writes before prepare_training gives
      the prepared batch with that column dropped. */
  lemma PrepareTrainingWithout(t: Table, c: string)
    requires t.Valid() && c !in PIPELINE_COLUMNS
    ensures PrepareTraining(t.Without(c)) == PrepareTraining(t).Without(c)
  {
    var t0 := Cleaned(t);
    var t1 := CoreNumericFeatures(t0);
    var t2 := DelinquencyFeatures(t1);
    var t3 := RiskFlags(t2);
    var t4 := BinningFeatures(t3);
    var t5 := InteractionFeatures(t4);
    var t6 := DomainFeatures(t5);
    CleanedWithout(t, c);
    CoreNumericWithout(t0, c);
    DelinquencyWithout(t1, c);
    RiskFlagsWithout(t2, c);
    BinningWithout(t3, c);
    InteractionWithout(t4, c);
    DomainWithout(t5, c);
    FeatureSelectionWithout(t6, c);
  }

  /** The label is not a column of the pipeline. */
  lemma TargetNotInPipeline()
    ensures TARGET !in PIPELINE_COLUMNS && TARGET !in FINAL_DROP_COLS
  {
    TargetNotRaw();
    TargetNotEngineered();
    TargetNotInteraction();
  }

  lemma TargetNotRaw()
    ensures TARGET !in {INDEX_COL, AGE, DEPENDENTS, PAST_DUE_30_59, PAST_DUE_60_89, LATE_90}
    ensures TARGET !in CORE_NUMERIC_INPUTS + RISK_FLAG_INPUTS + BINNING_INPUTS + INTERACTION_INPUTS + DOMAIN_INPUTS
  {
  }

  lemma TargetNotEngineered()
    ensures TARGET !in CORE_NUMERIC_OUTPUTS + DELINQUENCY_OUTPUTS + RISK_FLAG_OUTPUTS + BINNING_OUTPUTS
  {
  }

  lemma TargetNotInteraction()
    ensures TARGET !in INTERACTION_OUTPUTS + DOMAIN_OUTPUTS
    ensures TARGET !in FINAL_DROP_COLS
  {
  }

  /** Preparing a batch with its label and then dropping the label is the
      same as preparing the batch without it. */
  lemma PrepareTrainingIgnoresTarget(t: Table)
    requires t.Valid()
    ensures PrepareTraining(t.Without(TARGET)) == PrepareTraining(t).Without(TARGET)
  {
    TargetNotInPipeline();
    PrepareTrainingWithout(t, TARGET);
  }
}

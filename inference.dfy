/** `src/inference.py`: scoring a raw frame in the dataset's own columns,
    by the preparation pipeline followed by the scoring step. */
module Inference {
  import opened Frames
  import opened Schema
  import opened Predict
  import Preprocessing
  import TargetLeakage

  /** The labels are the threshold comparison of the probabilities the
      classifier gives for the prepared frame; that frame holds none of the
      columns the preparation drops, no leftover index and no target. */
  function PredictFromRaw(pkg: ModelPackage, df: Table): (r: Prediction)
    requires df.Valid()
    ensures var seen := ModelInput(Preprocessing.PrepareTraining(df));
            && seen.rows == df.rows
            && TARGET !in seen.cols && INDEX_COL !in seen.cols
            && (forall n :: n in seen.cols ==> n !in Preprocessing.FINAL_DROP_COLS)
            && r.probas == pkg.model(seen)
    ensures |r.labels| == |r.probas|
    ensures forall i :: 0 <= i < |r.labels| ==> r.labels[i] == 0 || r.labels[i] == 1
    ensures forall i :: 0 <= i < |r.labels| ==> (r.labels[i] == 1 <==> r.probas[i] >= pkg.threshold)
  {
    Preprocessing.PreparedHasNoIndex(df);
    PredictFromDf(pkg, Preprocessing.PrepareTraining(df))
  }

  /** No stage removes rows, so a row-wise classifier yields one label and
      one probability per raw row. */
  lemma RawLength(pkg: ModelPackage, df: Table)
    requires df.Valid() && RowWise(pkg.model)
    ensures |PredictFromRaw(pkg, df).labels| == df.rows
    ensures |PredictFromRaw(pkg, df).probas| == df.rows
  {
    PredictLength(pkg, Preprocessing.PrepareTraining(df));
  }

  /** Whether the raw frame carries the target, and what it holds, never
      changes the prediction: no derivation reads it and scoring drops it. */
  lemma RawIgnoresTarget(pkg: ModelPackage, df: Table, target: seq<Cell>)
    requires df.Valid() && |target| == df.rows
    ensures PredictFromRaw(pkg, df) == PredictFromRaw(pkg, df.Without(TARGET))
    ensures PredictFromRaw(pkg, df.With(TARGET, target)) == PredictFromRaw(pkg, df.Without(TARGET))
  {
    var p := Preprocessing.PrepareTraining(df);
    TargetLeakage.PrepareTrainingIgnoresTarget(df);
    PredictWithoutTarget(pkg, p);
    PredictWithoutTarget(pkg, p.Without(TARGET));
    var w := df.With(TARGET, target);
    TargetLeakage.PrepareTrainingIgnoresTarget(w);
    WithoutWithSame(df, target);
    PredictWithoutTarget(pkg, Preprocessing.PrepareTraining(w));
  }

  /** The probabilities lie in [0, 1] whenever the classifier's do. */
  lemma RawInUnitRange(pkg: ModelPackage, df: Table)
    requires df.Valid() && InUnitRange(pkg.model)
    ensures forall i :: 0 <= i < |PredictFromRaw(pkg, df).probas| ==> 0.0 <= PredictFromRaw(pkg, df).probas[i] <= 1.0
  {
    PredictInUnitRange(pkg, Preprocessing.PrepareTraining(df));
  }
}

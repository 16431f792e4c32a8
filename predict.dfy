/** `src/predict.py`: scoring a prepared frame. The stored classifier is a
    parameter of the model package; the target column is dropped before it
    sees the frame, and each row is labelled by comparing its probability
    with the package's threshold. */
module Predict {
  import opened Frames
  import opened Schema

  /** The probability of default the classifier gives each row of a frame. */
  type Classifier = Table -> seq<real>

  datatype ModelPackage = ModelPackage(model: Classifier, threshold: real)

  /** Labels (0 or 1) and the probabilities they were read from. */
  datatype Prediction = Prediction(labels: seq<int>, probas: seq<real>)

  /** A classifier that gives one probability per row. */
  ghost predicate RowWise(model: Classifier)
  {
    forall t: Table :: |model(t)| == t.rows
  }

  /** A classifier whose outputs are all probabilities. */
  ghost predicate InUnitRange(model: Classifier)
  {
    forall t: Table, i :: 0 <= i < |model(t)| ==> 0.0 <= model(t)[i] <= 1.0
  }

  /** The frame the classifier sees: the input without the target column,
      every other column passed through as it is. */
  function ModelInput(df: Table): (r: Table)
    requires df.Valid()
    ensures r.Valid() && r.rows == df.rows && TARGET !in r.cols
    ensures forall n :: n != TARGET ==> (n in r.cols <==> n in df.cols)
    ensures forall n :: n in df.cols && n != TARGET ==> r.cols[n] == df.cols[n]
  {
    if TARGET in df.cols then df.Without(TARGET) else df
  }

  /** `(probas >= threshold).astype(int)`. */
  function Decide(probas: seq<real>, threshold: real): (r: seq<int>)
    ensures |r| == |probas|
    ensures forall i :: 0 <= i < |probas| ==> r[i] == 0 || r[i] == 1
    ensures forall i :: 0 <= i < |probas| ==> (r[i] == 1 <==> probas[i] >= threshold)
  {
    seq(|probas|, i requires 0 <= i < |probas| => if probas[i] >= threshold then 1 else 0)
  }

  /** The labels are exactly the threshold comparison of the probabilities
      the classifier gives for the frame without its target. */
  function PredictFromDf(pkg: ModelPackage, df: Table): (r: Prediction)
    requires df.Valid()
    ensures r.probas == pkg.model(ModelInput(df))
    ensures |r.labels| == |r.probas|
    ensures forall i :: 0 <= i < |r.labels| ==> r.labels[i] == 0 || r.labels[i] == 1
    ensures forall i :: 0 <= i < |r.labels| ==> (r.labels[i] == 1 <==> r.probas[i] >= pkg.threshold)
  {
    var probas := pkg.model(ModelInput(df));
    Prediction(Decide(probas, pkg.threshold), probas)
  }

  /** Dropping the target first changes nothing. */
  lemma ModelInputWithoutTarget(df: Table)
    requires df.Valid()
    ensures ModelInput(df.Without(TARGET)) == ModelInput(df)
  {
    var d := df.Without(TARGET);
    assert TARGET !in d.names;
    WithoutAbsent(d, TARGET);
    if TARGET !in df.cols {
      WithoutAbsent(df, TARGET);
    }
  }

  /** Whether the target column is there never changes the prediction. */
  lemma PredictWithoutTarget(pkg: ModelPackage, df: Table)
    requires df.Valid()
    ensures PredictFromDf(pkg, df) == PredictFromDf(pkg, df.Without(TARGET))
  {
    ModelInputWithoutTarget(df);
  }

  /** What the target column holds never changes the prediction. */
  lemma PredictIgnoresTarget(pkg: ModelPackage, df: Table, target: seq<Cell>)
    requires df.Valid() && |target| == df.rows
    ensures PredictFromDf(pkg, df.With(TARGET, target)) == PredictFromDf(pkg, df.Without(TARGET))
  {
    var w := df.With(TARGET, target);
    ModelInputWithoutTarget(w);
    WithoutWithSame(df, target);
  }

  /** Writing the target and dropping it again leaves the frame without
      the target. */
  lemma WithoutWithSame(df: Table, target: seq<Cell>)
    requires df.Valid() && |target| == df.rows
    ensures df.With(TARGET, target).Without(TARGET) == df.Without(TARGET)
  {
    if TARGET !in df.names {
      KeepDroppedLast(df.names, TARGET);
    }
    assert df.cols[TARGET := target] - {TARGET} == df.cols - {TARGET};
  }

  lemma KeepDroppedLast(s: seq<string>, x: string)
    ensures Keep(s + [x], {x}) == Keep(s, {x})
  {
    assert (s + [x])[..|s|] == s;
  }

  /** One label and one probability per row, from a row-wise classifier. */
  lemma PredictLength(pkg: ModelPackage, df: Table)
    requires df.Valid() && RowWise(pkg.model)
    ensures |PredictFromDf(pkg, df).labels| == df.rows
    ensures |PredictFromDf(pkg, df).probas| == df.rows
  {
    assert |pkg.model(ModelInput(df))| == ModelInput(df).rows;
  }

  /** The probabilities returned are the classifier's, so they lie in
      [0, 1] whenever the classifier's do. */
  lemma PredictInUnitRange(pkg: ModelPackage, df: Table)
    requires df.Valid() && InUnitRange(pkg.model)
    ensures forall i :: 0 <= i < |PredictFromDf(pkg, df).probas| ==> 0.0 <= PredictFromDf(pkg, df).probas[i] <= 1.0
  {
    var p := PredictFromDf(pkg, df).probas;
    forall i | 0 <= i < |p|
      ensures 0.0 <= p[i] <= 1.0
    {
      assert p[i] == pkg.model(ModelInput(df))[i];
    }
  }
}

# Credit-scoring feature pipeline in Dafny

This project models the deterministic part of a credit-scoring service. That part takes a raw applicant
table in the "Give Me Some Credit" column layout (age, monthly income, the three past-due counts,
revolving utilisation, debt ratio and so on). It turns the table into the feature table the classifier
was trained on, and labels every row by comparing the classifier's probability of default with a stored
threshold.

A table (`Frames.Table`) holds:
- an ordered list of column names;
- a map from name to column;
- a row count.

A cell is one of:
- `Missing` (pandas NaN);
- `Num(v)`, a real number;
- `Label(text)`, a category produced by `pd.cut`;
- `Log1p(arg)`, the value `log1p(arg)`, kept symbolic.

`Frames.Frame` is the pandas frame copy a stage mutates. It is a class with the same three fields, and its
`Assign` and `Drop` methods update them in place.

Each stage is modelled twice:
- a method works step by step on a `Frame`, as the source does;
- a function states the table the stage returns.

Each method's postcondition ties its result to the function. The lemmas then state what the source
promises about the function.

The project covers two feature pipelines.

- `Preprocessing` (`src/data_preprocessing.py`) is the pipeline `prepare_training` runs:
  - cleaning: drops the index, imputes age, income and dependents with batch medians, caps the past-due counts at 10;
  - log1p columns, debt-to-income ratio and the utilisation flag;
  - delinquency totals, flags and severity score;
  - the quantile-based high-debt flag;
  - four `pd.cut` bins;
  - five interaction products;
  - four domain ratios;
  - the fixed drop list.
- `FeatureEngineering` (`src/feature_engineering.py`) is the stricter variant:
  - every step checks its required columns and raises `ValueError` with the sorted missing names;
  - missing inputs read as 0;
  - the utilisation flag is `> 1.0`, the debt flag is `> 0.4`, and the income bins are left-closed.

  The two pipelines are kept apart, each as written. The lemma `FeatureEngineering.DelinquencyAgrees` shows
  that their delinquency stages coincide whenever the three counts are present.

The other modules:
- `Predict` (`src/predict.py`) drops the target column and calls the classifier. The classifier is a
  function parameter of the model package, stored with its threshold. `Predict` then labels each row.
- `Inference` (`src/inference.py`) chains `prepare_training` and `predict_from_df`.
- `Stats` states pandas `median` and linear-interpolation `quantile`.
- `Binning` states `pd.cut`.
- `NameOrder` states Python's string order and `sorted(set(...))`, which the missing-column message uses.
- `TargetLeakage` proves that no stage of `prepare_training` reads the target column.

## Model

| member | source | states |
|---|---|---|
| Frames.Frame.Copy | src/data_preprocessing.py:43 | the copy holds exactly the given table |
| Frames.Frame.Assign | src/data_preprocessing.py:82-84 | after `df[name] = col` the frame is the old table with that column written (appended at the end when new), every other column untouched |
| Frames.Frame.Drop | src/data_preprocessing.py:46-47 | after dropping a column the frame is the old table without it, the remaining names in their old order |
| Frames.Table.With | src/data_preprocessing.py:82-84 | writing a column sets exactly that column, keeps every other one and keeps the table well formed when the column has one cell per row |
| Frames.Table.Without | src/data_preprocessing.py:46-47 | dropping a column removes exactly that column and keeps the table well formed |
| Frames.Keep | src/data_preprocessing.py:290 | the kept names are exactly the input names outside the drop set |
| Frames.KeepOrder | src/data_preprocessing.py:290 | kept names stay in their input order |
| Frames.KeepKeep | src/data_preprocessing.py:290 | filtering twice is filtering once by the union of the drop sets |
| Frames.OrZero | src/feature_engineering.py:95 | `fillna(0)`: a number reads as itself, anything else as 0 |
| Frames.Present | src/data_preprocessing.py:52 | the values a NaN-skipping statistic sees are exactly the numbers in the column |
| Frames.PresentMultiplicity | src/data_preprocessing.py:52 | each number is seen as many times as rows of the column hold it |
| Frames.SafeRatio | src/data_preprocessing.py:94-95 | the ratio is always a number; with a nonzero numeric divisor it times the divisor gives the numerator back, otherwise it is 0 |
| Frames.AtLeastColumn | src/data_preprocessing.py:99-101 | each flag is 0 or 1, and 1 exactly when the cell is a number at or above the threshold |
| Frames.AboveColumn | src/data_preprocessing.py:121 | each flag is 0 or 1, and 1 exactly when the cell is a number strictly above the threshold |
| Frames.SumColumn | src/data_preprocessing.py:116 | the row sum skips NaN: every cell is the sum of the three cells read with NaN as 0 |
| Frames.ProductColumn | src/data_preprocessing.py:222-224 | each cell is the product of the two cells, NaN when either is not a number |
| Frames.Log1pColumn | src/data_preprocessing.py:82-84 | each cell is log1p of the input where the input is a number, NaN otherwise |
| Frames.ExtendsTrans | src/data_preprocessing.py:302-313 | two stages that only write columns of a given set compose into one that only writes that set |
| Stats.Sort | src/data_preprocessing.py:52 | the sorted values are ascending and a permutation of the input |
| Stats.SortedUnique | src/data_preprocessing.py:52 | two ascending arrangements of the same values are equal |
| Stats.Median | src/data_preprocessing.py:52 | the median exists exactly when some value is present |
| Stats.MedianIsMiddle | src/data_preprocessing.py:52 | in any ascending arrangement of the values, the median is the middle value for an odd count and the mean of the two middle values for an even count |
| Stats.MedianBalanced | src/data_preprocessing.py:52 | at most half the values lie strictly below the median and at most half strictly above |
| Stats.MedianWithinRange | src/data_preprocessing.py:52 | the median lies between some value and some value |
| Stats.MedianOrderFree | src/data_preprocessing.py:52 | row order does not change the median |
| Stats.Quantile | src/data_preprocessing.py:155 | the quantile exists exactly when some value is present |
| Stats.QuantileAtPosition | src/data_preprocessing.py:155 | with pos = p·(n−1) and lo its floor, in any ascending arrangement of the values the quantile lies between the values at lo and lo+1, on the straight line between them at fraction pos−lo, and equals the value at lo when pos is whole |
| Stats.InterpolateBracket | src/data_preprocessing.py:155 | interpolating at a position of an ascending sequence lands between the entries at its floor and the next one, and on the entry itself at a whole position |
| Stats.QuantileWithinRange | src/data_preprocessing.py:155 | the quantile lies between some value and some value |
| Stats.QuantileAtMostBound | src/data_preprocessing.py:155 | any upper bound of all values bounds the quantile |
| Stats.QuantileOrderFree | src/data_preprocessing.py:155 | row order does not change the quantile |
| Binning.CountPassed | src/data_preprocessing.py:173-206 | with increasing cut points, the cut points a value has passed are exactly the first ones, as many as the count |
| Binning.BinIndexIsInterval | src/data_preprocessing.py:173-206 | a value gets a bin exactly when it passes the first cut point, the bin it gets contains it, and any bin containing it is the one it gets |
| Binning.CutCellIsInterval | src/data_preprocessing.py:173-206 | a number gets no label exactly when it lies below the first cut point (at or below it for right-closed bins), and otherwise the label of the interval containing it |
| NameOrder.BelowTransitive | src/feature_engineering.py:33 | Python string order is transitive |
| NameOrder.BelowTotal | src/feature_engineering.py:33 | any two different strings are ordered one way or the other |
| NameOrder.SortedSet | src/feature_engineering.py:33 | `sorted(set(names))` is strictly increasing and holds exactly the given names |
| NameOrder.SortedUnique | src/feature_engineering.py:33 | a strictly sorted list is determined by its elements |
| Preprocessing.CleaningNamesDistinct | src/data_preprocessing.py:11-15 | the delinquency columns are the three past-due counts, distinct, and none is a column cleaning imputes or drops |
| Preprocessing.ClipUpper | src/data_preprocessing.py:67 | after capping, every number is at most the cap, numbers stay numbers, and cells not above the cap are unchanged |
| Preprocessing.ImputeAgeCells | src/data_preprocessing.py:50-53 | an age that is 0 or missing becomes the median of the nonzero present ages (stays missing when there is none); other ages are unchanged |
| Preprocessing.ImputeMedianCells | src/data_preprocessing.py:56-62 | a missing cell becomes the median of the column's present values; other cells are unchanged |
| Preprocessing.CleanBasic | src/data_preprocessing.py:35-69 | the step-by-step cleaning of a frame copy returns exactly the cleaned table |
| Preprocessing.ImputeAgeColumn | src/data_preprocessing.py:50-53 | the in-place age repair leaves the frame with the imputed age column, or untouched when age is absent |
| Preprocessing.ImputeMedianColumn | src/data_preprocessing.py:56-62 | the in-place median fill leaves the frame with the imputed column, or untouched when it is absent |
| Preprocessing.CapDelinquencyColumns | src/data_preprocessing.py:65-67 | the capping loop caps each present delinquency column in turn and touches nothing else |
| Preprocessing.CappedAll | src/data_preprocessing.py:65-69 | once every delinquency column is capped the frame is the cleaned table |
| Preprocessing.CleanedColumn | src/data_preprocessing.py:35-69 | a column survives cleaning exactly when it is not the index, and then holds its cleaned cells |
| Preprocessing.CleanedShape | src/data_preprocessing.py:43-47 | cleaning keeps the rows, removes only the index column, keeps the column order and leaves every column it does not clean as it was |
| Preprocessing.CleanedCapsDelinquency | src/data_preprocessing.py:64-67 | each delinquency count is at most 10 after cleaning, and counts already at most 10 are unchanged |
| Preprocessing.ImputeAgeIdempotent | src/data_preprocessing.py:50-53 | repairing age twice is repairing it once |
| Preprocessing.ImputeMedianIdempotent | src/data_preprocessing.py:56-62 | filling with the median twice is filling once |
| Preprocessing.ClipUpperIdempotent | src/data_preprocessing.py:67 | capping twice is capping once |
| Preprocessing.CleanedIdempotent | src/data_preprocessing.py:35-69 | cleaning a cleaned table changes nothing, whether or not the imputed columns had usable values |
| Preprocessing.MaskZerosUndoesZeroFill | src/data_preprocessing.py:51 | masking zeros undoes filling gaps with 0 when the column had no zeros |
| Preprocessing.AddCoreNumericFeatures | src/data_preprocessing.py:74-103 | the step-by-step stage on a frame copy returns exactly the core-numeric table |
| Preprocessing.CoreNumericExtends | src/data_preprocessing.py:74-103 | the stage keeps the rows and every input column and writes only its six output columns |
| Preprocessing.DebtToIncomeColumn | src/data_preprocessing.py:93-95 | the debt-to-income column is the safe ratio of debt ratio to income |
| Preprocessing.DebtToIncomeRatio | src/data_preprocessing.py:93-95 | the ratio times a nonzero income gives the debt ratio back, and it is 0 where income is 0 or missing |
| Preprocessing.HighUtilizationFlagIff | src/data_preprocessing.py:98-101 | the utilisation flag is 0 or 1, and 1 exactly when utilisation is at least 1.0 |
| Preprocessing.AddDelinquencyFeatures | src/data_preprocessing.py:108-140 | the step-by-step stage returns exactly the delinquency table |
| Preprocessing.DelinquencyColumns | src/data_preprocessing.py:114-138 | the five delinquency columns are the total, its > 0 and >= 2 flags, the 90-day flag (all 0 without the count) and the weighted score |
| Preprocessing.DelinquencyFlags | src/data_preprocessing.py:115-130 | the total is the NaN-skipping sum of the three counts when all three columns exist and 0 otherwise; Ever is 1 iff total > 0, Multiple iff total >= 2, Ever90 iff the 90-day count is a number > 0 |
| Preprocessing.MultipleImpliesEver | src/data_preprocessing.py:121-130 | a row flagged as multiply delinquent is flagged as ever delinquent |
| Preprocessing.SeverityScore | src/data_preprocessing.py:134-138 | the score is c30 + 2·c60 + 3·c90 with absent columns as 0, NaN exactly when some present count is NaN |
| Preprocessing.SeverityBracketsTotal | src/data_preprocessing.py:115-138 | for non-negative counts the total is at most the score and the score at most three times the total |
| Preprocessing.SeverityAfterCleaning | src/data_preprocessing.py:304-306 | after cleaning, the severity score of every row is at most 60 |
| Preprocessing.DelinquencyExtends | src/data_preprocessing.py:108-140 | the stage keeps every input column and writes only its five outputs |
| Preprocessing.AddRiskFlags | src/data_preprocessing.py:145-162 | the step-by-step stage returns exactly the risk-flag table |
| Preprocessing.HighDebtFlagIff | src/data_preprocessing.py:152-158 | the high-debt flag is 0 or 1, and 1 exactly when the ratio column exists and the row's ratio is at least the batch's 0.93 quantile |
| Preprocessing.LargestRatioFlagged | src/data_preprocessing.py:153-156 | the row with the largest debt-to-income ratio is always flagged |
| Preprocessing.AddBinningFeatures | src/data_preprocessing.py:166-208 | the step-by-step stage returns exactly the binning table |
| Preprocessing.BinningRows | src/data_preprocessing.py:172-206 | each bin cell is the band of its number (missing for NaN); age, income and utilisation bands are right-closed from 0, delinquency bands left-closed |
| Preprocessing.AgeBinBands | src/data_preprocessing.py:174-179 | the `pd.cut` of an age is (0,30], (30,45], (45,60], (60,inf), nothing at or below 0 |
| Preprocessing.IncomeBinBands | src/data_preprocessing.py:183-188 | the `pd.cut` of an income is (0,3000], (3000,6000], (6000,10000], (10000,inf), so zero income gets no bin |
| Preprocessing.UtilizationBinBands | src/data_preprocessing.py:192-197 | the `pd.cut` of a utilisation is (0,0.3], (0.3,0.7], (0.7,1], (1,inf) |
| Preprocessing.DelinquencyBinBands | src/data_preprocessing.py:201-206 | the `pd.cut` of a total is [0,1), [1,2), [2,4), [4,inf), so every non-negative total gets exactly one bin |
| Preprocessing.AddInteractionFeatures | src/data_preprocessing.py:214-246 | the step-by-step stage returns exactly the interaction table |
| Preprocessing.UtilizationXDebtColumn | src/data_preprocessing.py:221-224 | the column is the row-wise product of utilisation and debt ratio |
| Preprocessing.IncomeXAgeColumn | src/data_preprocessing.py:227-228 | the column is the row-wise product of income and age |
| Preprocessing.DelinqXUtilizationColumn | src/data_preprocessing.py:231-234 | the column is the row-wise product of total delinquency and utilisation |
| Preprocessing.OpenLinesXRealEstateColumn | src/data_preprocessing.py:237-240 | the column is the row-wise product of open lines and real-estate loans |
| Preprocessing.HighUtilXDebtZero | src/data_preprocessing.py:243-244 | the flag-times-debt column is 0 wherever the utilisation flag is 0 and the debt ratio is present |
| Preprocessing.AddDomainFeatures | src/data_preprocessing.py:250-279 | the step-by-step stage returns exactly the domain table |
| Preprocessing.EffectiveDebtLoadColumn | src/data_preprocessing.py:258-259 | the column is debt ratio times income |
| Preprocessing.CreditLineDensityRows | src/data_preprocessing.py:262-265 | density times a nonzero age gives the open lines back, and it is 0 where age is 0 or missing |
| Preprocessing.RealEstateExposureColumn | src/data_preprocessing.py:268-271 | the column is real-estate loans times debt ratio |
| Preprocessing.FinancialStressColumn | src/data_preprocessing.py:274-277 | the column is log1p of debt ratio times utilisation |
| Preprocessing.FeatureSelection | src/data_preprocessing.py:285-291 | the result holds exactly the input columns not on the drop list, their cells unchanged, in input order, and never fails |
| Preprocessing.FeatureSelectionKeepsOrder | src/data_preprocessing.py:290 | surviving columns keep their relative input order |
| Preprocessing.FeatureSelectionIdempotent | src/data_preprocessing.py:285-291 | selecting twice is selecting once |
| Preprocessing.PrepareTrainingSteps | src/data_preprocessing.py:297-313 | running the stages in order returns the prepared table, with the rows kept and no dropped column and no index left |
| Preprocessing.PreparedHasNoIndex | src/data_preprocessing.py:302-313 | no later stage brings the index column back |
| TargetLeakage.PrepareTrainingWithout | src/data_preprocessing.py:297-313 | dropping a column no stage reads or writes commutes with the whole preparation |
| TargetLeakage.PrepareTrainingIgnoresTarget | src/data_preprocessing.py:297-313 | preparing without the target equals preparing and then dropping it, so the target never feeds a feature |
| FeatureEngineering.CheckRequiredColumns | src/feature_engineering.py:28-33 | the check fails exactly when some required column is absent, and the error lists exactly the absent ones, strictly sorted, with the step's name |
| FeatureEngineering.CheckOrderFree | src/feature_engineering.py:30-33 | the order and repetition of the required names do not change the outcome |
| FeatureEngineering.OrZeroColumn | src/feature_engineering.py:95 | every cell is the number read with gaps as 0 |
| FeatureEngineering.DelinquencyFeatures | src/feature_engineering.py:36-74 | the step succeeds exactly when the three counts are present, and otherwise names exactly the missing ones |
| FeatureEngineering.AddDelinquencyFeatures | src/feature_engineering.py:52-74 | the step-by-step stage returns exactly the outcome of the delinquency step |
| FeatureEngineering.DelinquencyRows | src/feature_engineering.py:55-72 | total = NaN-skipping sum, Ever iff total > 0, Ever90 iff c90 > 0, Multiple iff total >= 2, score = c30 + 2·c60 + 3·c90 or NaN |
| FeatureEngineering.DelinquencyAgrees | src/feature_engineering.py:52-72 | with the counts present, this step gives the same table as the delinquency stage of `prepare_training` |
| FeatureEngineering.MultipleImpliesEver | src/feature_engineering.py:59-65 | Multiple implies Ever |
| FeatureEngineering.DelinquencyExtends | src/feature_engineering.py:53-74 | the step keeps every input column and writes only its five outputs |
| FeatureEngineering.TotalIfAbsent | src/feature_engineering.py:98-101 | an existing total is kept; otherwise it is computed, failing exactly when a count is absent, with an error naming exactly the absent counts |
| FeatureEngineering.UtilizationInteractions | src/feature_engineering.py:77-111 | the step succeeds exactly when utilisation and debt ratio are present and a total exists or can be computed; its error names exactly the absent utilisation inputs, or, when those are present and no total exists, exactly the absent counts |
| FeatureEngineering.AddUtilizationInteractions | src/feature_engineering.py:90-111 | the step-by-step stage returns exactly the outcome of the utilisation step |
| FeatureEngineering.UtilizationColumns | src/feature_engineering.py:95-109 | the four interaction columns are products and flags of utilisation and debt ratio read with gaps as 0 |
| FeatureEngineering.UtilizationProductRow | src/feature_engineering.py:104-105 | per row: utilisation times debt ratio, and total times utilisation, with gaps as 0 |
| FeatureEngineering.UtilizationFlagRow | src/feature_engineering.py:108-109 | the flag is 0 or 1, and 1 exactly when utilisation > 1.0; flag-times-debt is 0 on unflagged rows and the debt ratio on flagged ones |
| FeatureEngineering.TotalReused | src/feature_engineering.py:99 | an existing total column comes out unchanged |
| FeatureEngineering.TotalComputed | src/feature_engineering.py:99-101 | a missing total is the NaN-skipping sum of the counts, which must then be present |
| FeatureEngineering.UtilizationExtends | src/feature_engineering.py:93-111 | the step keeps every other column and writes only its five outputs |
| FeatureEngineering.DebtExposureFeatures | src/feature_engineering.py:114-165 | the step succeeds exactly when debt ratio and income are present, and its error names exactly the absent ones |
| FeatureEngineering.AddDebtExposureFeatures | src/feature_engineering.py:129-165 | the step-by-step stage returns exactly the outcome of the exposure step |
| FeatureEngineering.ExposureLoadColumns | src/feature_engineering.py:134-149 | the load column is always written; the real-estate and stress columns exist exactly when their input does (or they already did), with their products |
| FeatureEngineering.ExposureLoadRow | src/feature_engineering.py:138-149 | per row: debt × income, loans × debt and log1p(debt × utilisation), gaps read as 0 |
| FeatureEngineering.ExposureRatioColumns | src/feature_engineering.py:152-163 | the density column exists exactly when open lines and age do (or it already did); the high-debt flag exactly when the ratio does (or it already did) |
| FeatureEngineering.DensityRow | src/feature_engineering.py:152-158 | density times a nonzero age gives the open lines back (gaps as 0), and it is 0 where age is 0 or missing |
| FeatureEngineering.HighDebtRow | src/feature_engineering.py:161-163 | the flag is 0 or 1, and 1 exactly when the ratio (gaps as 0) exceeds 0.4 |
| FeatureEngineering.ExposureExtends | src/feature_engineering.py:132-165 | the step keeps every other column and writes only its five outputs |
| FeatureEngineering.IncomeBins | src/feature_engineering.py:168-197 | the step succeeds exactly when income is present, and otherwise reports exactly that column |
| FeatureEngineering.AddIncomeBins | src/feature_engineering.py:180-197 | the step-by-step stage returns exactly the outcome of the income-bin step |
| FeatureEngineering.IncomeTierIsCut | src/feature_engineering.py:183-195 | the left-closed cut is [0,3000), [3000,6000), [6000,10000), [10000,inf) |
| FeatureEngineering.IncomeBinRow | src/feature_engineering.py:188-195 | each row's bin is the band of its income with gaps as 0, so it is labelled exactly when that income is non-negative |
| FeatureEngineering.IncomeBinsExtends | src/feature_engineering.py:181-197 | the step adds only the income-bin column |
| FeatureEngineering.ApplyAllFeatureEngineering | src/feature_engineering.py:200-215 | the four steps in order return exactly the composed outcome |
| FeatureEngineering.AllOkIff | src/feature_engineering.py:209-215 | the whole chain succeeds exactly when the three counts, utilisation, debt ratio and income are present |
| FeatureEngineering.AllExtends | src/feature_engineering.py:209-215 | the chain keeps every row and every input column in its order, leaves the columns it does not write unchanged, and adds only its outputs |
| Predict.ModelInput | src/predict.py:59-64 | the classifier's input has no target column and every other column passed through unchanged |
| Predict.Decide | src/predict.py:75 | each label is 0 or 1, and 1 exactly when its probability is at least the threshold |
| Predict.PredictFromDf | src/predict.py:41-77 | the probabilities are the classifier's on the frame without target, and the labels their threshold comparison |
| Predict.PredictWithoutTarget | src/predict.py:61-64 | dropping the target beforehand does not change the prediction |
| Predict.PredictIgnoresTarget | src/predict.py:61-64 | whatever the target column holds, the prediction is the same |
| Predict.PredictLength | src/predict.py:74-75 | with a row-wise classifier there is one label and one probability per row |
| Predict.PredictInUnitRange | src/predict.py:74 | the returned probabilities lie in [0, 1] whenever the classifier's do |
| Inference.PredictFromRaw | src/inference.py:22-53 | the probabilities are the classifier's on the prepared frame, which keeps the rows and holds no target, index or dropped column; the labels are their threshold comparison |
| Inference.RawLength | src/inference.py:48-53 | one label and one probability per raw row |
| Inference.RawIgnoresTarget | src/inference.py:48-53 | whether the raw frame holds the target, and what it holds, never changes the prediction |
| Inference.RawInUnitRange | src/inference.py:48-53 | the returned probabilities lie in [0, 1] whenever the classifier's do |

## Left out

- Loading the model package from disk, the configuration paths, the web API, the Streamlit app, training and the `__main__` blocks are not part of this model. The classifier and its threshold are a parameter (`Predict.ModelPackage`).
- The classifier's internals (the column transformer and XGBoost) are not modelled. Its output is a function of the frame it is given. `RowWise` and `InUnitRange` state the two assumptions some lemmas make about it.
- `log1p` is not computed: a `Log1p(arg)` cell records its argument (`Frames.Log1pOf`). Properties of the logarithm are not modelled.
- Floating point is modelled as exact reals. Rounding, infinities and NaN arithmetic beyond "missing in, missing out" are not modelled.
- FeatureEngineering.UtilizationInteractions: replacing ±inf debt ratios by 0 is not modelled, because reals have no infinities. The same holds for the other `replace([np.inf, -np.inf], np.nan)` calls in the exposure step.
- Arithmetic on a `Label` or `Log1p` cell is read as NaN, where pandas would raise or compute. The pipelines only do arithmetic on numeric input columns.
- Column dtypes and the conversion of 0/1 flags to `int` are not modelled. Flags are the numbers 0 and 1.
- FeatureEngineering.IncomeBins: the optional `bins` argument of `add_income_bins` is not modelled. Only the default cut points are used.
- FeatureEngineering.CheckRequiredColumns: the error is the step's name plus the sorted missing names (`MissingColumns`). The formatting of the exception message text is not modelled.
- The feature list stored in the model package, and any reordering the classifier's pipeline does, are not modelled.

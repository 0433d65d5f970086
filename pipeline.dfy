/** The drift-detection scenario: classify the reference dataset's
    columns, test each numerical column with Kolmogorov-Smirnov and each
    categorical column with chi-squared (comparison data against reference
    data), and collect the results, in the task order of
    configuration/config.py. */
module Pipeline {
  import opened Frames
  import opened Counting
  import opened PValue
  import opened PyDict
  import opened Classifier
  import opened Drivers
  import opened Results

  /** Each categorical label names a column of the reference dataset. */
  lemma ClassifiedAreNames(ds: Dataset)
    ensures forall c :: c in CategoricalNames(ds) ==> c in Names(ds)
    ensures forall c :: c in NumericalNames(ds) ==> c in Names(ds)
  {
    ClassifiedFromColumns(ds);
    forall c | c in CategoricalNames(ds) ensures c in Names(ds) {
      var i :| 0 <= i < |ds| && ds[i].name == c && ds[i].dtype == Object;
      assert Names(ds)[i] == c;
    }
    forall c | c in NumericalNames(ds) ensures c in Names(ds) {
      var i :| 0 <= i < |ds| && ds[i].name == c && ds[i].dtype != Object;
      assert Names(ds)[i] == c;
    }
  }

  /** What the evaluation needs of its inputs: two loaded data frames, and
      every reference column present in the comparison data. */
  predicate Comparable(referenceData: Dataset, compareData: Dataset) {
    && WellFormed(referenceData) && WellFormed(compareData)
    && forall c :: c in Names(referenceData) ==> c in Names(compareData)
  }

  /** `ks_results`: the Kolmogorov-Smirnov dict over the reference data's
      numerical columns, each test run on (comparison column, reference
      column). */
  function KsResults(referenceData: Dataset, compareData: Dataset, ks: KsTest): Dict
    requires Comparable(referenceData, compareData)
  {
    ClassifiedAreNames(referenceData);
    var numCols := NumericalNames(referenceData);
    FromPairs(numCols, KsValues(compareData, referenceData, numCols, ks))
  }

  /** `chi_results`: the chi-squared dict over the reference data's
      categorical columns. */
  function ChiSquaredResults(referenceData: Dataset, compareData: Dataset, chisquare: ChiSquareTest): Dict
    requires Comparable(referenceData, compareData)
  {
    ClassifiedAreNames(referenceData);
    var catCols := CategoricalNames(referenceData);
    FromPairs(catCols, ChiSquaredValues(compareData, referenceData, catCols, chisquare))
  }

  /** `drift_results`: the report `collect_results` builds from the two dicts. */
  function Evaluation(referenceData: Dataset, compareData: Dataset, ks: KsTest, chisquare: ChiSquareTest): Report
    requires Comparable(referenceData, compareData)
  {
    Collect(KsResults(referenceData, compareData, ks), ChiSquaredResults(referenceData, compareData, chisquare))
  }

  /** Column labels are unique, so neither dict merges a repeated key: each
      lists its columns in reference order, with the column's own p-value. */
  lemma ResultsDicts(referenceData: Dataset, compareData: Dataset, ks: KsTest, chisquare: ChiSquareTest)
    requires Comparable(referenceData, compareData)
    ensures KsResults(referenceData, compareData, ks).keys == NumericalNames(referenceData)
    ensures ChiSquaredResults(referenceData, compareData, chisquare).keys == CategoricalNames(referenceData)
    ensures forall c :: c in NumericalNames(referenceData) ==> c in Names(referenceData) && c in Names(compareData)
    ensures forall c :: c in CategoricalNames(referenceData) ==> c in Names(referenceData) && c in Names(compareData)
    ensures forall i :: 0 <= i < |NumericalNames(referenceData)| ==>
      KsResults(referenceData, compareData, ks).entries[NumericalNames(referenceData)[i]] ==
      KsValues(compareData, referenceData, NumericalNames(referenceData), ks)[i]
    ensures forall i :: 0 <= i < |CategoricalNames(referenceData)| ==>
      ChiSquaredResults(referenceData, compareData, chisquare).entries[CategoricalNames(referenceData)[i]] ==
      ChiSquaredValues(compareData, referenceData, CategoricalNames(referenceData), chisquare)[i]
  {
    ClassifiedAreNames(referenceData);
    ClassificationPartition(referenceData);
    var numCols, catCols := NumericalNames(referenceData), CategoricalNames(referenceData);
    FromPairsDistinct(numCols, KsValues(compareData, referenceData, numCols, ks));
    FromPairsDistinct(catCols, ChiSquaredValues(compareData, referenceData, catCols, chisquare));
  }

  /** The report has one row per reference column, the categorical columns
      first and then the numerical ones, each block in column order, and
      every row's column exists in both datasets. */
  lemma EvaluationColumns(referenceData: Dataset, compareData: Dataset, ks: KsTest, chisquare: ChiSquareTest)
    requires Comparable(referenceData, compareData)
    ensures RowsAgree(Evaluation(referenceData, compareData, ks, chisquare))
    ensures Evaluation(referenceData, compareData, ks, chisquare).columns ==
      CategoricalNames(referenceData) + NumericalNames(referenceData)
    ensures |Evaluation(referenceData, compareData, ks, chisquare).columns| == |referenceData|
    ensures multiset(Evaluation(referenceData, compareData, ks, chisquare).columns) == multiset(Names(referenceData))
    ensures forall c :: c in Evaluation(referenceData, compareData, ks, chisquare).columns ==>
      c in Names(referenceData) && c in Names(compareData)
  {
    ResultsDicts(referenceData, compareData, ks, chisquare);
    ClassificationCounts(referenceData);
    CollectShape(KsResults(referenceData, compareData, ks), ChiSquaredResults(referenceData, compareData, chisquare));
  }

  /** Row i of the categorical block is categorical column i's chi-squared
      p-value on (comparison column, reference column), cut to two decimals,
      and it is flagged as drift exactly when the raw p-value is below 0.05. */
  lemma EvaluationChiSquaredRow(referenceData: Dataset, compareData: Dataset, ks: KsTest, chisquare: ChiSquareTest, i: nat)
    requires Comparable(referenceData, compareData)
    requires i < |CategoricalNames(referenceData)|
    ensures CategoricalNames(referenceData)[i] in Names(referenceData)
    ensures CategoricalNames(referenceData)[i] in Names(compareData)
    ensures RowsAgree(Evaluation(referenceData, compareData, ks, chisquare))
    ensures i < |Evaluation(referenceData, compareData, ks, chisquare).columns|
    ensures Evaluation(referenceData, compareData, ks, chisquare).columns[i] == CategoricalNames(referenceData)[i]
    ensures Evaluation(referenceData, compareData, ks, chisquare).tests[i] == ChiSquaredLabel
    ensures var col := CategoricalNames(referenceData)[i];
      Evaluation(referenceData, compareData, ks, chisquare).pValues[i] ==
        ChiSquaredPValue(Select(compareData, col), Select(referenceData, col), chisquare)
    ensures var col := CategoricalNames(referenceData)[i];
      Evaluation(referenceData, compareData, ks, chisquare).drift[i] ==
        (chisquare(Expected(Select(compareData, col), Select(referenceData, col)),
                   Expected(Select(referenceData, col), Select(compareData, col))) < Threshold)
  {
    ResultsDicts(referenceData, compareData, ks, chisquare);
    var numDict, catDict := KsResults(referenceData, compareData, ks), ChiSquaredResults(referenceData, compareData, chisquare);
    CollectShape(numDict, catDict);
    var col := CategoricalNames(referenceData)[i];
    assert catDict.keys[i] == col;
  }

  /** Row |categorical| + i is numerical column i's Kolmogorov-Smirnov
      p-value on (comparison column, reference column), cut to two decimals,
      and it is flagged as drift exactly when the raw p-value is below 0.05. */
  lemma EvaluationKolmogorovRow(referenceData: Dataset, compareData: Dataset, ks: KsTest, chisquare: ChiSquareTest, i: nat)
    requires Comparable(referenceData, compareData)
    requires i < |NumericalNames(referenceData)|
    ensures NumericalNames(referenceData)[i] in Names(referenceData)
    ensures NumericalNames(referenceData)[i] in Names(compareData)
    ensures RowsAgree(Evaluation(referenceData, compareData, ks, chisquare))
    ensures |CategoricalNames(referenceData)| + i < |Evaluation(referenceData, compareData, ks, chisquare).columns|
    ensures Evaluation(referenceData, compareData, ks, chisquare).columns[|CategoricalNames(referenceData)| + i] ==
      NumericalNames(referenceData)[i]
    ensures Evaluation(referenceData, compareData, ks, chisquare).tests[|CategoricalNames(referenceData)| + i] ==
      KolmogorovSmirnovLabel
    ensures var col := NumericalNames(referenceData)[i];
      Evaluation(referenceData, compareData, ks, chisquare).pValues[|CategoricalNames(referenceData)| + i] ==
        KsTwoSample(Select(compareData, col), Select(referenceData, col), ks)
    ensures var col := NumericalNames(referenceData)[i];
      Evaluation(referenceData, compareData, ks, chisquare).drift[|CategoricalNames(referenceData)| + i] ==
        (ks(Select(compareData, col), Select(referenceData, col)) < Threshold)
  {
    ResultsDicts(referenceData, compareData, ks, chisquare);
    var numDict, catDict := KsResults(referenceData, compareData, ks), ChiSquaredResults(referenceData, compareData, chisquare);
    CollectShape(numDict, catDict);
    var col := NumericalNames(referenceData)[i];
    assert numDict.keys[i] == col;
  }

  /** The scenario's task chain: classify the reference columns, run both
      per-column drivers on (comparison data, reference data), collect the
      results. The report is `Evaluation` of the inputs. */
  method Evaluate(referenceData: Dataset, compareData: Dataset, ks: KsTest, chisquare: ChiSquareTest)
    returns (driftResults: Report)
    requires Comparable(referenceData, compareData)
    ensures driftResults == Evaluation(referenceData, compareData, ks, chisquare)
    ensures RowsAgree(driftResults)
  {
    var numCols := DetectNumerical(referenceData);
    var catCols := DetectCategorical(referenceData);
    ClassifiedAreNames(referenceData);
    var numResults := Kolmogorov(compareData, referenceData, numCols, ks);
    var catResults := ChiSquared(compareData, referenceData, catCols, chisquare);
    driftResults := CollectResults(numResults, catResults);
  }
}

/** The per-column drift tests: `kolmogorov` runs the two-sample
    Kolmogorov-Smirnov test on each numerical column, `chi_squared` runs
    `chi_squared_2samp` on each categorical column, and both collect the
    truncated p-values in a dict keyed by column label. The statistics
    themselves (`scipy.stats.ks_2samp`, `scipy.stats.chisquare`) are
    supplied as the parameters `ks` and `chisquare`. */
module Drivers {
  import opened Frames
  import opened Counting
  import opened PValue
  import opened PyDict

  /** `scipy.stats.ks_2samp(...)[1]`, the raw p-value. */
  type KsTest = (seq<Scalar>, seq<Scalar>) -> real

  /** `scipy.stats.chisquare(f_obs, f_exp)[1]`, the raw p-value. */
  type ChiSquareTest = (seq<real>, seq<real>) -> real

  /** The p-value `chi_squared_2samp` reports: the goodness-of-fit test of
      series 1's rescaled frequencies (observed) against series 2's
      (expected), cut to two decimals. */
  function ChiSquaredPValue(s1: seq<Scalar>, s2: seq<Scalar>, chisquare: ChiSquareTest): (p: real)
    ensures var raw := chisquare(Expected(s1, s2), Expected(s2, s1));
      && IsHundredths(p)
      && (raw >= 0.0 ==> 0.0 <= p <= raw < p + 0.01)
      && (p < Threshold <==> raw < Threshold)
  {
    var raw := chisquare(Expected(s1, s2), Expected(s2, s1));
    TruncateBounds(raw);
    TruncatePreservesVerdict(raw);
    Truncate(raw)
  }

  /** One of the two rescaling loops of `chi_squared_2samp`: for each
      distinct value of `s1`, in first-appearance order, append
      count * len(s2) / len(s1). The division is reached only when `s1`
      has a distinct value, hence is non-empty. */
  method ExpectedFrequencies(s1: seq<Scalar>, s2: seq<Scalar>) returns (freq: seq<real>)
    ensures freq == Expected(s1, s2)
    ensures |freq| == |Unique(s1)|
    ensures |s1| > 0 ==> Sum(freq) == |s2| as real
  {
    var unique := Unique(s1);
    freq := [];
    for i := 0 to |unique|
      invariant |s1| == 0 ==> |unique| == 0
      invariant freq == ScaleCounts(unique[..i], s1, |s2|)
    {
      assert unique[..i + 1][..i] == unique[..i];
      freq := freq + [(Count(s1, unique[i]) * |s2|) as real / |s1| as real];
    }
    assert unique[..|unique|] == unique;
    ExpectedShape(s1, s2);
  }

  /** `chi_squared_2samp`: rescale both series' frequencies, run the
      goodness-of-fit test, cut the p-value to two decimals. */
  method ChiSquaredTwoSample(s1: seq<Scalar>, s2: seq<Scalar>, chisquare: ChiSquareTest) returns (p: real)
    ensures p == ChiSquaredPValue(s1, s2, chisquare)
  {
    var freq1 := ExpectedFrequencies(s1, s2);
    var freq2 := ExpectedFrequencies(s2, s1);
    p := Truncate(chisquare(freq1, freq2));
  }

  /** Every requested label names a column of both datasets. */
  predicate Requested(dataset: Dataset, refDataset: Dataset, cols: seq<string>) {
    forall c :: c in cols ==> c in Names(dataset) && c in Names(refDataset)
  }

  /** The truncated Kolmogorov-Smirnov p-value of each requested column. */
  function KsValues(dataset: Dataset, refDataset: Dataset, cols: seq<string>, ks: KsTest): (vals: seq<real>)
    requires Requested(dataset, refDataset, cols)
    ensures |vals| == |cols|
  {
    seq(|cols|, k requires 0 <= k < |cols| => KsTwoSample(Select(dataset, cols[k]), Select(refDataset, cols[k]), ks))
  }

  /** The truncated chi-squared p-value of each requested column. */
  function ChiSquaredValues(dataset: Dataset, refDataset: Dataset, cols: seq<string>, chisquare: ChiSquareTest): (vals: seq<real>)
    requires Requested(dataset, refDataset, cols)
    ensures |vals| == |cols|
  {
    seq(|cols|, k requires 0 <= k < |cols| => ChiSquaredPValue(Select(dataset, cols[k]), Select(refDataset, cols[k]), chisquare))
  }

  /** `kolmogorov`: `ks_dict[col] = ks_2samp(dataset[col], ref_dataset[col])`
      for each requested column. The keys are the requested labels in
      request order (a repeat keeps its first position), there is no other
      key, and each value is the truncated test result of that column. */
  method Kolmogorov(dataset: Dataset, refDataset: Dataset, numCols: seq<string>, ks: KsTest)
    returns (ksDict: Dict)
    requires WellFormed(dataset) && WellFormed(refDataset)
    requires Requested(dataset, refDataset, numCols)
    ensures ksDict == FromPairs(numCols, KsValues(dataset, refDataset, numCols, ks))
    ensures Valid(ksDict)
    ensures ksDict.keys == Unique(numCols)
    ensures Distinct(numCols) ==> ksDict.keys == numCols
    ensures forall c :: c in ksDict.entries ==> c in numCols
    ensures forall k :: 0 <= k < |numCols| ==>
      numCols[k] in ksDict.entries &&
      ksDict.entries[numCols[k]] == KsTwoSample(Select(dataset, numCols[k]), Select(refDataset, numCols[k]), ks)
  {
    ghost var vals := KsValues(dataset, refDataset, numCols, ks);
    ksDict := Empty();
    for i := 0 to |numCols|
      invariant ksDict == FromPairs(numCols[..i], vals[..i])
    {
      var col := numCols[i];
      assert col in Names(dataset) && col in Names(refDataset);
      var p := KsTwoSample(Select(dataset, col), Select(refDataset, col), ks);
      FromPairsSnoc(numCols, vals, i);
      ksDict := Assign(ksDict, col, p);
    }
    assert numCols[..|numCols|] == numCols && vals[..|vals|] == vals;
    FromPairsKeys(numCols, vals);
    assert Consistent(numCols, vals);
    FromPairsValues(numCols, vals);
    if Distinct(numCols) {
      UniqueOfDistinct(numCols);
    }
  }

  /** `chi_squared`: `chi_dict[col] = chi_squared_2samp(dataset[col],
      ref_dataset[col])` for each requested column, with the same key order
      and contents guarantees as `kolmogorov`. */
  method ChiSquared(dataset: Dataset, refDataset: Dataset, catCols: seq<string>, chisquare: ChiSquareTest)
    returns (chiDict: Dict)
    requires WellFormed(dataset) && WellFormed(refDataset)
    requires Requested(dataset, refDataset, catCols)
    ensures chiDict == FromPairs(catCols, ChiSquaredValues(dataset, refDataset, catCols, chisquare))
    ensures Valid(chiDict)
    ensures chiDict.keys == Unique(catCols)
    ensures Distinct(catCols) ==> chiDict.keys == catCols
    ensures forall c :: c in chiDict.entries ==> c in catCols
    ensures forall k :: 0 <= k < |catCols| ==>
      catCols[k] in chiDict.entries &&
      chiDict.entries[catCols[k]] == ChiSquaredPValue(Select(dataset, catCols[k]), Select(refDataset, catCols[k]), chisquare)
  {
    ghost var vals := ChiSquaredValues(dataset, refDataset, catCols, chisquare);
    chiDict := Empty();
    for i := 0 to |catCols|
      invariant chiDict == FromPairs(catCols[..i], vals[..i])
    {
      var col := catCols[i];
      assert col in Names(dataset) && col in Names(refDataset);
      var p := ChiSquaredTwoSample(Select(dataset, col), Select(refDataset, col), chisquare);
      FromPairsSnoc(catCols, vals, i);
      chiDict := Assign(chiDict, col, p);
    }
    assert catCols[..|catCols|] == catCols && vals[..|vals|] == vals;
    FromPairsKeys(catCols, vals);
    assert Consistent(catCols, vals);
    FromPairsValues(catCols, vals);
    if Distinct(catCols) {
      UniqueOfDistinct(catCols);
    }
  }
}

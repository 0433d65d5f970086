/** `collect_results`: the drift report, a data frame of four parallel
    columns built row by row, the chi-squared rows first and then the
    Kolmogorov-Smirnov rows. */
module Results {
  import opened PValue
  import opened PyDict

  const ChiSquaredLabel: string := "Chi-Squared"
  const KolmogorovSmirnovLabel: string := "Kolmogorov-Smirnov"

  /** The data frame `{"Column": ..., "Test": ..., "p-value": ..., "Drift": ...}`. */
  datatype Report = Report(columns: seq<string>, tests: seq<string>, pValues: seq<real>, drift: seq<bool>)

  /** The four lists have one entry per row, and each row's drift flag is
      its p-value strictly below the threshold. */
  predicate RowsAgree(r: Report) {
    && |r.tests| == |r.columns|
    && |r.pValues| == |r.columns|
    && |r.drift| == |r.columns|
    && forall i :: 0 <= i < |r.drift| ==> r.drift[i] == (r.pValues[i] < Threshold)
  }

  /** The one-row report for column `col` with p-value `p`. */
  function Row(col: string, p: real, tag: string): Report {
    Report([col], [tag], [p], [p < Threshold])
  }

  /** The rows of `a` followed by the rows of `b`. */
  function Concat(a: Report, b: Report): Report {
    Report(a.columns + b.columns, a.tests + b.tests, a.pValues + b.pValues, a.drift + b.drift)
  }

  /** One block of rows: a row tagged `tag` for each key, in order, with the
      p-value stored under that key. */
  function Rows(keys: seq<string>, entries: map<string, real>, tag: string): Report
    requires forall k :: k in keys ==> k in entries
  {
    var values := seq(|keys|, i requires 0 <= i < |keys| => entries[keys[i]]);
    Report(keys, seq(|keys|, _ => tag), values, seq(|keys|, i requires 0 <= i < |keys| => values[i] < Threshold))
  }

  /** The report `collect_results` builds: the chi-squared block, then the
      Kolmogorov-Smirnov block. */
  function Collect(numResults: Dict, catResults: Dict): Report
    requires Valid(numResults) && Valid(catResults)
  {
    Concat(Rows(catResults.keys, catResults.entries, ChiSquaredLabel),
           Rows(numResults.keys, numResults.entries, KolmogorovSmirnovLabel))
  }

  /** A block of rows grows one row per key: the block for the first i + 1
      keys is the block for the first i keys and then key i's row. */
  lemma RowsSnoc(keys: seq<string>, entries: map<string, real>, tag: string, i: nat)
    requires forall k :: k in keys ==> k in entries
    requires i < |keys|
    ensures Rows(keys[..i + 1], entries, tag) ==
      Concat(Rows(keys[..i], entries, tag), Row(keys[i], entries[keys[i]], tag))
  {
    var r, prev := Rows(keys[..i + 1], entries, tag), Rows(keys[..i], entries, tag);
    var next := Concat(prev, Row(keys[i], entries[keys[i]], tag));
    assert r.columns == next.columns;
    assert r.tests == next.tests;
    assert r.pValues == next.pValues;
    assert r.drift == next.drift;
  }

  /** The collected report has |cat_results| + |num_results| rows: first the
      chi-squared block in cat_results' key order, then the
      Kolmogorov-Smirnov block in num_results' key order; every p-value is
      copied unchanged and every drift flag is the p-value strictly below
      0.05. */
  lemma CollectShape(numResults: Dict, catResults: Dict)
    requires Valid(numResults) && Valid(catResults)
    ensures RowsAgree(Collect(numResults, catResults))
    ensures Collect(numResults, catResults).columns == catResults.keys + numResults.keys
    ensures forall i :: 0 <= i < |catResults.keys| ==>
      Collect(numResults, catResults).tests[i] == ChiSquaredLabel &&
      Collect(numResults, catResults).pValues[i] == catResults.entries[catResults.keys[i]]
    ensures forall i :: 0 <= i < |numResults.keys| ==>
      Collect(numResults, catResults).tests[|catResults.keys| + i] == KolmogorovSmirnovLabel &&
      Collect(numResults, catResults).pValues[|catResults.keys| + i] == numResults.entries[numResults.keys[i]]
  {
    var a := Rows(catResults.keys, catResults.entries, ChiSquaredLabel);
    var b := Rows(numResults.keys, numResults.entries, KolmogorovSmirnovLabel);
    var r := Collect(numResults, catResults);
    assert r == Concat(a, b);
    var n := |a.columns|;
    forall i | 0 <= i < n
      ensures r.tests[i] == ChiSquaredLabel && r.pValues[i] == catResults.entries[catResults.keys[i]]
      ensures r.drift[i] == (r.pValues[i] < Threshold)
    {
      assert r.tests[i] == a.tests[i] && r.pValues[i] == a.pValues[i] && r.drift[i] == a.drift[i];
    }
    forall i | 0 <= i < |b.columns|
      ensures r.tests[n + i] == KolmogorovSmirnovLabel && r.pValues[n + i] == numResults.entries[numResults.keys[i]]
      ensures r.drift[n + i] == (r.pValues[n + i] < Threshold)
    {
      assert r.tests[n + i] == b.tests[i] && r.pValues[n + i] == b.pValues[i] && r.drift[n + i] == b.drift[i];
    }
    forall i | n <= i < |r.columns| ensures r.drift[i] == (r.pValues[i] < Threshold) {
      assert r.drift[n + (i - n)] == (r.pValues[n + (i - n)] < Threshold);
    }
  }

  /** `collect_results(num_results, cat_results)`: one row per entry of
      `cat_results`, in its key order, tagged "Chi-Squared", then one row
      per entry of `num_results`, tagged "Kolmogorov-Smirnov"; each p-value
      is copied unchanged and flagged as drift when strictly below 0.05. */
  method CollectResults(numResults: Dict, catResults: Dict) returns (results: Report)
    requires Valid(numResults) && Valid(catResults)
    ensures results == Collect(numResults, catResults)
    ensures RowsAgree(results)
  {
    var columns: seq<string> := [];
    var tests: seq<string> := [];
    var values: seq<real> := [];
    var detected: seq<bool> := [];
    for i := 0 to |catResults.keys|
      invariant Report(columns, tests, values, detected) == Rows(catResults.keys[..i], catResults.entries, ChiSquaredLabel)
    {
      var col := catResults.keys[i];
      RowsSnoc(catResults.keys, catResults.entries, ChiSquaredLabel, i);
      columns := columns + [col];
      tests := tests + [ChiSquaredLabel];
      values := values + [catResults.entries[col]];
      if catResults.entries[col] < Threshold {
        detected := detected + [true];
      } else {
        detected := detected + [false];
      }
    }
    assert catResults.keys[..|catResults.keys|] == catResults.keys;
    ghost var chi := Report(columns, tests, values, detected);
    for i := 0 to |numResults.keys|
      invariant Report(columns, tests, values, detected) ==
        Concat(chi, Rows(numResults.keys[..i], numResults.entries, KolmogorovSmirnovLabel))
    {
      var col := numResults.keys[i];
      ghost var before := Rows(numResults.keys[..i], numResults.entries, KolmogorovSmirnovLabel);
      RowsSnoc(numResults.keys, numResults.entries, KolmogorovSmirnovLabel, i);
      columns := columns + [col];
      tests := tests + [KolmogorovSmirnovLabel];
      values := values + [numResults.entries[col]];
      if numResults.entries[col] < Threshold {
        detected := detected + [true];
      } else {
        detected := detected + [false];
      }
      assert chi.columns + before.columns + [col] == chi.columns + (before.columns + [col]);
      assert chi.tests + before.tests + [KolmogorovSmirnovLabel] == chi.tests + (before.tests + [KolmogorovSmirnovLabel]);
      assert chi.pValues + before.pValues + [numResults.entries[col]] == chi.pValues + (before.pValues + [numResults.entries[col]]);
      assert chi.drift + before.drift + [numResults.entries[col] < Threshold] == chi.drift + (before.drift + [numResults.entries[col] < Threshold]);
    }
    assert numResults.keys[..|numResults.keys|] == numResults.keys;
    results := Report(columns, tests, values, detected);
    CollectShape(numResults, catResults);
  }
}

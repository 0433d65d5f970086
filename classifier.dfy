/** The column classifier: `detect_categorical` and `detect_numerical` walk
    the columns of the reference dataset in order and split them by dtype,
    `object` columns being categorical and all others numerical. */
module Classifier {
  import opened Frames
  import opened Counting

  /** Labels of the `object` columns, in column order. */
  function CategoricalNames(ds: Dataset): seq<string> {
    if |ds| == 0 then []
    else CategoricalNames(ds[..|ds| - 1]) + (if ds[|ds| - 1].dtype == Object then [ds[|ds| - 1].name] else [])
  }

  /** Labels of the non-`object` columns, in column order. */
  function NumericalNames(ds: Dataset): seq<string> {
    if |ds| == 0 then []
    else NumericalNames(ds[..|ds| - 1]) + (if ds[|ds| - 1].dtype != Object then [ds[|ds| - 1].name] else [])
  }

  /** `detect_categorical`: append each `object` column's label in a loop. */
  method DetectCategorical(dataset: Dataset) returns (categorical: seq<string>)
    requires WellFormed(dataset)
    ensures categorical == CategoricalNames(dataset)
  {
    categorical := [];
    for i := 0 to |dataset|
      invariant categorical == CategoricalNames(dataset[..i])
    {
      assert dataset[..i + 1][..i] == dataset[..i];
      if dataset[i].dtype == Object {
        categorical := categorical + [dataset[i].name];
      }
    }
    assert dataset[..|dataset|] == dataset;
  }

  /** `detect_numerical`: append each non-`object` column's label in a loop. */
  method DetectNumerical(dataset: Dataset) returns (numerical: seq<string>)
    requires WellFormed(dataset)
    ensures numerical == NumericalNames(dataset)
  {
    numerical := [];
    for i := 0 to |dataset|
      invariant numerical == NumericalNames(dataset[..i])
    {
      assert dataset[..i + 1][..i] == dataset[..i];
      if dataset[i].dtype != Object {
        numerical := numerical + [dataset[i].name];
      }
    }
    assert dataset[..|dataset|] == dataset;
  }

  /** `c` is an order-preserving merge of `a` and `b`: every element of `c`
      comes from exactly one of them, and each keeps its own order. */
  predicate Interleaves(a: seq<string>, b: seq<string>, c: seq<string>)
    decreases |c|
  {
    if |c| == 0 then a == [] && b == []
    else
      || (|a| > 0 && a[|a| - 1] == c[|c| - 1] && Interleaves(a[..|a| - 1], b, c[..|c| - 1]))
      || (|b| > 0 && b[|b| - 1] == c[|c| - 1] && Interleaves(a, b[..|b| - 1], c[..|c| - 1]))
  }

  /** The column labels are an order-preserving merge of the two outputs:
      each output is a subsequence of the column order and the two together
      use every column exactly once. */
  lemma {:induction false} ClassificationInterleaves(ds: Dataset)
    ensures Interleaves(CategoricalNames(ds), NumericalNames(ds), Names(ds))
  {
    if |ds| > 0 {
      var init := ds[..|ds| - 1];
      ClassificationInterleaves(init);
      assert Names(ds)[..|ds| - 1] == Names(init);
      var cat, num := CategoricalNames(init), NumericalNames(init);
      var a, b, c := CategoricalNames(ds), NumericalNames(ds), Names(ds);
      if ds[|ds| - 1].dtype == Object {
        assert a == cat + [c[|c| - 1]] && b == num;
        assert a[..|a| - 1] == cat;
      } else {
        assert b == num + [c[|c| - 1]] && a == cat;
        assert b[..|b| - 1] == num;
      }
    }
  }

  /** Sizes and contents: the two outputs together hold each column label
      once (as a multiset they are the column labels). */
  lemma {:induction false} ClassificationCounts(ds: Dataset)
    ensures |CategoricalNames(ds)| + |NumericalNames(ds)| == |ds|
    ensures multiset(CategoricalNames(ds) + NumericalNames(ds)) == multiset(Names(ds))
  {
    if |ds| > 0 {
      var init := ds[..|ds| - 1];
      var n := ds[|ds| - 1].name;
      ClassificationCounts(init);
      NamesSnoc(ds);
      var cat, num := CategoricalNames(init), NumericalNames(init);
      var a, b := CategoricalNames(ds), NumericalNames(ds);
      assert multiset(a) + multiset(b) == multiset(cat) + multiset(num) + multiset{n} by {
        if ds[|ds| - 1].dtype == Object {
          assert a == cat + [n] && b == num;
        } else {
          assert b == num + [n] && a == cat;
        }
      }
      assert multiset(a + b) == multiset(a) + multiset(b);
      assert multiset(Names(init) + [n]) == multiset(Names(init)) + multiset{n};
    }
  }

  lemma NamesSnoc(ds: Dataset)
    requires |ds| > 0
    ensures Names(ds) == Names(ds[..|ds| - 1]) + [ds[|ds| - 1].name]
  {
  }

  /** Every label in an output is a label of the dataset, and of a column
      with the matching dtype. */
  lemma {:induction false} ClassifiedFromColumns(ds: Dataset)
    ensures forall n :: n in CategoricalNames(ds) ==>
      exists i :: 0 <= i < |ds| && ds[i].name == n && ds[i].dtype == Object
    ensures forall n :: n in NumericalNames(ds) ==>
      exists i :: 0 <= i < |ds| && ds[i].name == n && ds[i].dtype != Object
  {
    if |ds| > 0 {
      var init := ds[..|ds| - 1];
      ClassifiedFromColumns(init);
      forall n | n in CategoricalNames(ds)
        ensures exists i :: 0 <= i < |ds| && ds[i].name == n && ds[i].dtype == Object
      {
        if n in CategoricalNames(init) {
          var i :| 0 <= i < |init| && init[i].name == n && init[i].dtype == Object;
          assert ds[i] == init[i];
        } else {
          assert ds[|ds| - 1].name == n;
        }
      }
      forall n | n in NumericalNames(ds)
        ensures exists i :: 0 <= i < |ds| && ds[i].name == n && ds[i].dtype != Object
      {
        if n in NumericalNames(init) {
          var i :| 0 <= i < |init| && init[i].name == n && init[i].dtype != Object;
          assert ds[i] == init[i];
        } else {
          assert ds[|ds| - 1].name == n;
        }
      }
    }
  }

  /** With unique labels the split is a partition: column i lands in the
      categorical output if and only if its dtype is `object`, and in the
      numerical output otherwise; both outputs are free of repeats. */
  lemma {:induction false} ClassificationPartition(ds: Dataset)
    requires WellFormed(ds)
    ensures forall i :: 0 <= i < |ds| ==>
      (ds[i].name in CategoricalNames(ds) <==> ds[i].dtype == Object)
    ensures forall i :: 0 <= i < |ds| ==>
      (ds[i].name in NumericalNames(ds) <==> ds[i].dtype != Object)
    ensures Distinct(CategoricalNames(ds)) && Distinct(NumericalNames(ds))
  {
    if |ds| > 0 {
      var init := ds[..|ds| - 1];
      var last := ds[|ds| - 1];
      assert WellFormed(init);
      ClassificationPartition(init);
      ClassifiedFromColumns(init);
      var cat, num := CategoricalNames(init), NumericalNames(init);
      forall i | 0 <= i < |init| ensures init[i].name != last.name {
        assert ds[i] == init[i];
      }
      assert last.name !in cat && last.name !in num;
      forall i | 0 <= i < |ds| - 1
        ensures (ds[i].name in CategoricalNames(ds) <==> ds[i].dtype == Object)
        ensures (ds[i].name in NumericalNames(ds) <==> ds[i].dtype != Object)
      {
        assert ds[i] == init[i];
        assert ds[i].name != last.name;
      }
    }
  }
}

/** The tabular data the drift pipeline reads: a dataset is an ordered
    sequence of named columns, each carrying a dtype tag (the pandas dtype
    the loader inferred) and its values. */
module Frames {

  /** A cell value: label text or a number. */
  datatype Scalar = Text(text: string) | Number(x: real)

  /** The pandas dtype of a column; `Object` is the dtype pandas gives to
      columns of strings, the others are native numeric dtypes. */
  datatype DType = Object | Int64 | Float64 | Bool

  datatype Column = Column(name: string, dtype: DType, values: seq<Scalar>)

  type Dataset = seq<Column>

  /** `dataset.columns`: the column labels in order. */
  function Names(ds: Dataset): (names: seq<string>)
    ensures |names| == |ds|
    ensures forall i :: 0 <= i < |ds| ==> names[i] == ds[i].name
  {
    seq(|ds|, i requires 0 <= i < |ds| => ds[i].name)
  }

  /** A data frame as the loader builds it: unique column labels (so that
      `dataset[col]` selects one series) and one row count for all columns. */
  predicate WellFormed(ds: Dataset) {
    && (forall i, j :: 0 <= i < j < |ds| ==> ds[i].name != ds[j].name)
    && (forall i, j :: 0 <= i < j < |ds| ==> |ds[i].values| == |ds[j].values|)
  }

  /** `dataset[name]`: the values of the column labelled `name`. */
  function Select(ds: Dataset, name: string): seq<Scalar>
    requires name in Names(ds)
  {
    if ds[0].name == name then ds[0].values
    else
      assert Names(ds) == [ds[0].name] + Names(ds[1..]);
      Select(ds[1..], name)
  }

  /** With unique labels, `dataset[ds[i].name]` is column i itself. */
  lemma {:induction false} SelectColumn(ds: Dataset, i: int)
    requires WellFormed(ds) && 0 <= i < |ds|
    ensures ds[i].name in Names(ds)
    ensures Select(ds, ds[i].name) == ds[i].values
  {
    assert Names(ds)[i] == ds[i].name;
    if i > 0 {
      assert ds[0].name != ds[i].name;
      assert ds[1..][i - 1] == ds[i];
      SelectColumn(ds[1..], i - 1);
    }
  }
}

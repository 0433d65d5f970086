/** Distinct values in first-appearance order, occurrence counts, and the
    rescaled ("expected") frequency vectors of the categorical drift test.
    `Unique` is the behaviour of pandas `Series.unique()` on a series
    without missing values, `Count` that of `Series.value_counts()[v]`. */
module Counting {

  predicate Distinct<T(==)>(s: seq<T>) {
    forall i, j :: 0 <= i < j < |s| ==> s[i] != s[j]
  }

  /** The distinct values of `s`, each kept at its first appearance. */
  function Unique<T(==)>(s: seq<T>): seq<T> {
    if |s| == 0 then []
    else
      var u := Unique(s[..|s| - 1]);
      if s[|s| - 1] in u then u else u + [s[|s| - 1]]
  }

  /** Index of the first occurrence of `x` in `s`. */
  function FirstIndex<T(==)>(s: seq<T>, x: T): (k: nat)
    requires x in s
    ensures k < |s| && s[k] == x
    ensures forall j :: 0 <= j < k ==> s[j] != x
  {
    if x in s[..|s| - 1] then FirstIndex(s[..|s| - 1], x) else |s| - 1
  }

  /** Number of occurrences of `x` in `s`. */
  function Count<T(==)>(s: seq<T>, x: T): nat {
    multiset(s)[x]
  }

  lemma {:induction false} UniqueElements<T>(s: seq<T>)
    ensures Distinct(Unique(s))
    ensures forall x :: x in Unique(s) ==> x in s
    ensures forall x :: x in s ==> x in Unique(s)
  {
    if |s| > 0 {
      var init := s[..|s| - 1];
      UniqueElements(init);
      assert s == init + [s[|s| - 1]];
    }
  }

  lemma {:induction false} UniqueFirstAppearanceOrder<T>(s: seq<T>)
    ensures forall x :: x in Unique(s) ==> x in s
    ensures forall i, j :: 0 <= i < j < |Unique(s)| ==>
      FirstIndex(s, Unique(s)[i]) < FirstIndex(s, Unique(s)[j])
  {
    UniqueElements(s);
    if |s| > 0 {
      var init := s[..|s| - 1];
      var x := s[|s| - 1];
      UniqueFirstAppearanceOrder(init);
      UniqueElements(init);
      var u := Unique(init);
      forall y | y in init ensures FirstIndex(s, y) == FirstIndex(init, y) { }
      if x !in u {
        assert x !in init;
        assert FirstIndex(s, x) == |s| - 1;
        forall i | 0 <= i < |u| ensures FirstIndex(s, u[i]) < |s| - 1 {
          assert u[i] in init;
        }
      }
    }
  }

  lemma {:induction false} UniqueOfDistinct<T>(s: seq<T>)
    requires Distinct(s)
    ensures Unique(s) == s
  {
    if |s| > 0 {
      var init := s[..|s| - 1];
      UniqueOfDistinct(init);
      assert s[|s| - 1] !in init;
      assert s == init + [s[|s| - 1]];
    }
  }

  /** Sum of the counts in `s` of the values listed in `u`. */
  function SumCounts<T(==)>(u: seq<T>, s: seq<T>): nat {
    if |u| == 0 then 0 else SumCounts(u[..|u| - 1], s) + Count(s, u[|u| - 1])
  }

  lemma {:induction false} SumCountsSnoc<T>(u: seq<T>, s: seq<T>, x: T)
    requires Distinct(u)
    ensures SumCounts(u, s + [x]) == SumCounts(u, s) + (if x in u then 1 else 0)
  {
    if |u| > 0 {
      var v := u[..|u| - 1];
      assert u == v + [u[|u| - 1]];
      SumCountsSnoc(v, s, x);
      assert multiset(s + [x]) == multiset(s) + multiset{x};
    }
  }

  /** Every element is counted once: the counts of the distinct values add up
      to the length of the series. */
  lemma {:induction false} SumCountsUnique<T>(s: seq<T>)
    ensures SumCounts(Unique(s), s) == |s|
  {
    if |s| > 0 {
      var t := s[..|s| - 1];
      var x := s[|s| - 1];
      assert s == t + [x];
      var u := Unique(t);
      SumCountsUnique(t);
      UniqueElements(t);
      SumCountsSnoc(u, t, x);
      if x !in u {
        assert (u + [x])[..|u|] == u;
        assert multiset(s) == multiset(t) + multiset{x};
        assert Count(t, x) == 0;
      }
    }
  }

  function Sum(xs: seq<real>): real {
    if |xs| == 0 then 0.0 else Sum(xs[..|xs| - 1]) + xs[|xs| - 1]
  }

  /** Entry i is count(u[i]) * other / |s|, the expression the source
      evaluates for each distinct value. */
  function ScaleCounts<T(==)>(u: seq<T>, s: seq<T>, other: nat): seq<real>
    requires |s| == 0 ==> |u| == 0
  {
    if |u| == 0 then []
    else ScaleCounts(u[..|u| - 1], s, other) + [(Count(s, u[|u| - 1]) * other) as real / |s| as real]
  }

  /** The rescaled frequency vector of `s1` against `s2`: one entry per
      distinct value of `s1`, in first-appearance order. */
  function Expected<T(==)>(s1: seq<T>, s2: seq<T>): seq<real> {
    ScaleCounts(Unique(s1), s1, |s2|)
  }

  lemma {:induction false} ScaleCountsAt<T>(u: seq<T>, s: seq<T>, other: nat)
    requires |s| == 0 ==> |u| == 0
    ensures |ScaleCounts(u, s, other)| == |u|
    ensures forall i :: 0 <= i < |u| ==>
      ScaleCounts(u, s, other)[i] == (Count(s, u[i]) * other) as real / |s| as real
  {
    if |u| > 0 {
      ScaleCountsAt(u[..|u| - 1], s, other);
    }
  }

  lemma DivAdd(a: real, b: real, m: real)
    requires m > 0.0
    ensures a / m + b / m == (a + b) / m
  {
  }

  lemma MulDivCancel(m: nat, n: nat)
    requires m > 0
    ensures (m * n) as real / m as real == n as real
  {
    assert (m * n) as real == m as real * n as real;
  }

  lemma MulDistrib(a: nat, b: nat, k: nat)
    ensures (a + b) * k == a * k + b * k
  {
  }

  lemma {:induction false} ScaleCountsSum<T>(u: seq<T>, s: seq<T>, other: nat)
    requires |s| > 0
    ensures Sum(ScaleCounts(u, s, other)) == (SumCounts(u, s) * other) as real / |s| as real
  {
    if |u| > 0 {
      var v := u[..|u| - 1];
      var x := u[|u| - 1];
      ScaleCountsSum(v, s, other);
      var prev := ScaleCounts(v, s, other);
      var a := SumCounts(v, s) * other;
      var c := Count(s, x) * other;
      var e := c as real / |s| as real;
      assert ScaleCounts(u, s, other) == prev + [e];
      assert (prev + [e])[..|prev|] == prev;
      assert Sum(prev + [e]) == Sum(prev) + e;
      DivAdd(a as real, c as real, |s| as real);
      MulDistrib(SumCounts(v, s), Count(s, x), other);
      assert SumCounts(u, s) * other == a + c;
    }
  }

  /** The rescaled vector of `s1` has one entry per distinct value of `s1`,
      entry i being count(u_i) * |s2| / |s1|, and these entries add up to
      exactly |s2| whenever `s1` is non-empty (nothing when it is empty). */
  lemma ExpectedShape<T>(s1: seq<T>, s2: seq<T>)
    ensures |Expected(s1, s2)| == |Unique(s1)|
    ensures forall i :: 0 <= i < |Unique(s1)| ==>
      |s1| > 0 && Expected(s1, s2)[i] == (Count(s1, Unique(s1)[i]) * |s2|) as real / |s1| as real
    ensures |s1| == 0 ==> Expected(s1, s2) == []
    ensures |s1| > 0 ==> Sum(Expected(s1, s2)) == |s2| as real
  {
    UniqueElements(s1);
    ScaleCountsAt(Unique(s1), s1, |s2|);
    if |s1| > 0 {
      ScaleCountsSum(Unique(s1), s1, |s2|);
      SumCountsUnique(s1);
      MulDivCancel(|s1|, |s2|);
    } else {
      assert Unique(s1) == [];
    }
  }

  /** Every rescaled entry is positive when the other series is non-empty. */
  lemma ExpectedPositive<T>(s1: seq<T>, s2: seq<T>)
    requires |s2| > 0
    ensures forall i :: 0 <= i < |Expected(s1, s2)| ==> Expected(s1, s2)[i] > 0.0
  {
    ExpectedShape(s1, s2);
    UniqueElements(s1);
    var u := Unique(s1);
    forall i | 0 <= i < |u| ensures Expected(s1, s2)[i] > 0.0 {
      assert u[i] in s1;
      assert Count(s1, u[i]) > 0;
      var c := Count(s1, u[i]) * |s2|;
      assert c > 0;
      assert c as real / |s1| as real > 0.0;
    }
  }

  /** The two vectors handed to the goodness-of-fit test have equal totals
      exactly when the two series have equal lengths. */
  lemma ExpectedTotalsAgreeIff<T>(s1: seq<T>, s2: seq<T>)
    requires |s1| > 0 && |s2| > 0
    ensures Sum(Expected(s1, s2)) == Sum(Expected(s2, s1)) <==> |s1| == |s2|
  {
    ExpectedShape(s1, s2);
    ExpectedShape(s2, s1);
  }

  /** The two vectors are not aligned: a series with two distinct values
      against one with a single value yields vectors of lengths 2 and 1. */
  lemma ExpectedLengthsMayDiffer()
    ensures |Expected(['a', 'b'], ['a'])| == 2 && |Expected(['a'], ['a', 'b'])| == 1
  {
    var s1, s2 := ['a', 'b'], ['a'];
    assert s1[..1] == ['a'];
    assert Unique(s1[..1]) == ['a'];
    assert Unique(s1) == ['a', 'b'];
    assert Unique(s2) == ['a'];
    ExpectedShape(s1, s2);
    ExpectedShape(s2, s1);
  }
}

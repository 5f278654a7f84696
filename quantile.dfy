/** Equal-frequency binning into five bins, as pandas' qcut(x, 5) does it: the six bin
    edges are the linearly interpolated 0, 1/5, ..., 5/5 quantiles of the data; a value
    falls in the first bin whose upper edge it does not exceed (the lowest edge belongs to
    bin 1); repeated edges raise an error.

    Edges are kept exactly, multiplied by five: the k/5 quantile of n sorted values sits
    at position k(n-1)/5, which is a whole number plus a multiple of 1/5. */
module Quantile {
  import opened Seqs
  import opened Wrappers

  /** The error qcut raises when two bin edges coincide. */
  datatype CutError = BinEdgesNotUnique

  lemma MulBound(k: int, m: int)
    requires 0 <= k <= 5 && 0 <= m
    ensures 0 <= k * m <= 5 * m
  {
  }

  /** Five times the k/5 quantile of sorted data, linearly interpolated between the two
      values around position k(n-1)/5. */
  function ScaledQuantile(s: seq<int>, k: int): (e: int)
    requires Sorted(s) && |s| >= 1 && 0 <= k <= 5
    ensures 5 * s[0] <= e <= 5 * s[|s| - 1]
    ensures k == 0 ==> e == 5 * s[0]
    ensures k == 5 ==> e == 5 * s[|s| - 1]
  {
    var m := |s| - 1;
    MulBound(k, m);
    var pos := k * m;
    var j := pos / 5;
    var frac := pos % 5;
    if frac == 0 then
      5 * s[j]
    else
      assert j + 1 <= m;
      InterpolationBound(s[j], s[j + 1], frac);
      5 * s[j] + frac * (s[j + 1] - s[j])
  }

  lemma InterpolationBound(lo: int, hi: int, frac: int)
    requires lo <= hi && 0 <= frac <= 5
    ensures 5 * lo <= 5 * lo + frac * (hi - lo) <= 5 * hi
  {
  }

  /** The six scaled bin edges of the data `s` (sorted). */
  function Edges(s: seq<int>): (e: seq<int>)
    requires Sorted(s) && |s| >= 1
    ensures |e| == 6
    ensures e[0] == 5 * s[0] && e[5] == 5 * s[|s| - 1]
    ensures forall k :: 0 <= k < 6 ==> e[k] == ScaledQuantile(s, k)
  {
    seq(6, k requires 0 <= k < 6 => ScaledQuantile(s, k))
  }

  /** The bin (1..5) of a scaled value: the first edge after the lowest that is at least
      the value. */
  function Bucket(e: seq<int>, x: int): (k: int)
    requires |e| == 6 && e[0] <= x <= e[5]
    ensures 1 <= k <= 5
    ensures x <= e[k]
    ensures forall j :: 1 <= j < k ==> e[j] < x
  {
    if x <= e[1] then 1
    else if x <= e[2] then 2
    else if x <= e[3] then 3
    else if x <= e[4] then 4
    else 5
  }

  /** qcut(values, 5): the bin (1..5) of every value, or the error for repeated edges.
      Empty data has no edges to tell apart, and fails too. */
  function QCut(values: seq<int>): (r: Result<seq<int>, CutError>)
    ensures r.Err? <==> |values| == 0 || !Distinct(Edges(SortAsc(values)))
    ensures r.Ok? ==> |r.value| == |values|
    ensures r.Ok? ==> forall i :: 0 <= i < |values| ==> 1 <= r.value[i] <= 5
  {
    if |values| == 0 then
      Err(BinEdgesNotUnique)
    else
      var sorted := SortAsc(values);
      var e := Edges(sorted);
      if !Distinct(e) then
        Err(BinEdgesNotUnique)
      else
        EdgesBracket(values);
        Ok(seq(|values|, i requires 0 <= i < |values| => Bucket(e, 5 * values[i])))
  }

  /** Every value lies between the lowest and the highest edge. */
  lemma EdgesBracket(values: seq<int>)
    requires |values| >= 1
    ensures forall i :: 0 <= i < |values| ==>
      Edges(SortAsc(values))[0] <= 5 * values[i] <= Edges(SortAsc(values))[5]
  {
    var sorted := SortAsc(values);
    forall i | 0 <= i < |values|
      ensures sorted[0] <= values[i] <= sorted[|sorted| - 1]
    {
      assert values[i] in multiset(sorted);
      SortedBounds(sorted, values[i]);
    }
  }

  /** Against non-decreasing edges, a value is in bucket k exactly when it is at most
      edge k and above edge k-1 (bucket 1 takes everything up to edge 1). */
  lemma BucketIff(e: seq<int>, x: int, k: int)
    requires |e| == 6 && e[0] <= x <= e[5] && 1 <= k <= 5
    requires forall a, b :: 0 <= a <= b < 6 ==> e[a] <= e[b]
    ensures Bucket(e, x) == k <==> x <= e[k] && (k == 1 || e[k - 1] < x)
  {
  }

  /** Each bin of a successful cut is characterised by the edges: value i is in bin k
      exactly when five times it is at most edge k and above edge k-1 (bin 1 takes
      everything up to edge 1). */
  lemma QCutBin(values: seq<int>, i: int, k: int)
    requires QCut(values).Ok? && 0 <= i < |values| && 1 <= k <= 5
    ensures var e := Edges(SortAsc(values));
            QCut(values).value[i] == k <==>
              5 * values[i] <= e[k] && (k == 1 || e[k - 1] < 5 * values[i])
  {
    var sorted := SortAsc(values);
    var e := Edges(sorted);
    EdgesBracket(values);
    forall a, b | 0 <= a <= b < 6 ensures e[a] <= e[b] {
      EdgesSorted(sorted, a, b);
    }
    assert QCut(values).value[i] == Bucket(e, 5 * values[i]);
    BucketIff(e, 5 * values[i], k);
  }

  /** Edges never decrease. */
  lemma EdgesSorted(s: seq<int>, k: int, l: int)
    requires Sorted(s) && |s| >= 1 && 0 <= k <= l <= 5
    ensures ScaledQuantile(s, k) <= ScaledQuantile(s, l)
  {
    var m := |s| - 1;
    MulBound(k, m);
    MulBound(l, m);
    MulMono(k, l, m);
    var pk, pl := k * m, l * m;
    var jk, jl := pk / 5, pl / 5;
    var fk, fl := pk % 5, pl % 5;
    if jk == jl {
      assert fk <= fl;
      if fk < fl {
        assert fk * (s[jk + 1] - s[jk]) <= fl * (s[jk + 1] - s[jk]) by {
          MulMono(fk, fl, s[jk + 1] - s[jk]);
        }
      }
    } else {
      assert jk < jl;
      if fk > 0 {
        InterpolationBound(s[jk], s[jk + 1], fk);
        assert s[jk + 1] <= s[jl];
      }
      if fl > 0 {
        InterpolationBound(s[jl], s[jl + 1], fl);
      }
    }
  }

  lemma MulMono(a: int, b: int, c: int)
    requires a <= b && 0 <= c
    ensures a * c <= b * c
  {
  }

  /** Binning is monotone: a value no larger than another never gets a higher bin. */
  lemma QCutMonotone(values: seq<int>, i: int, j: int)
    requires QCut(values).Ok? && 0 <= i < |values| && 0 <= j < |values|
    requires values[i] <= values[j]
    ensures QCut(values).value[i] <= QCut(values).value[j]
  {
    var e := Edges(SortAsc(values));
    EdgesBracket(values);
    var bi, bj := QCut(values).value[i], QCut(values).value[j];
    assert bi == Bucket(e, 5 * values[i]) && bj == Bucket(e, 5 * values[j]);
  }

  /** The smallest value is always in bin 1. */
  lemma QCutMinimumInFirstBin(values: seq<int>, i: int)
    requires QCut(values).Ok? && 0 <= i < |values|
    requires forall j :: 0 <= j < |values| ==> values[i] <= values[j]
    ensures QCut(values).value[i] == 1
  {
    var sorted := SortAsc(values);
    var e := Edges(sorted);
    assert sorted[0] in multiset(values);
    assert values[i] in multiset(sorted);
    SortedBounds(sorted, values[i]);
    var j :| 0 <= j < |values| && values[j] == sorted[0];
    assert values[i] == sorted[0];
    EdgesSorted(sorted, 0, 1);
    QCutBin(values, i, 1);
  }

  /** Data whose values are all equal has all its edges equal, so the cut fails. */
  lemma QCutFailsOnConstant(values: seq<int>)
    requires forall i, j :: 0 <= i < |values| && 0 <= j < |values| ==> values[i] == values[j]
    ensures QCut(values).Err?
  {
    if |values| > 0 {
      var sorted := SortAsc(values);
      assert sorted[0] in multiset(values) && sorted[|sorted| - 1] in multiset(values);
      var e := Edges(sorted);
      assert e[0] == e[1];
    }
  }
}

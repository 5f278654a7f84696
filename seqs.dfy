/** Sequence facts shared by the pipeline stages: boolean-mask filtering, sorting,
    distinctness and counting. */
module Seqs {

  /** The rows of `s` that satisfy `p`, in their original order (a boolean-mask selection). */
  function Filter<T(!new)>(p: T -> bool, s: seq<T>): (r: seq<T>)
    ensures |r| <= |s|
    ensures forall x :: x in r <==> x in s && p(x)
  {
    if s == [] then [] else (if p(s[0]) then [s[0]] else []) + Filter(p, s[1..])
  }

  /** Filtering is row-wise: it distributes over concatenation, so it keeps relative order. */
  lemma {:induction false} FilterAppend<T(!new)>(p: T -> bool, a: seq<T>, b: seq<T>)
    ensures Filter(p, a + b) == Filter(p, a) + Filter(p, b)
  {
    if a == [] {
      assert a + b == b;
    } else {
      assert (a + b)[0] == a[0];
      assert (a + b)[1..] == a[1..] + b;
      FilterAppend(p, a[1..], b);
    }
  }

  /** Filtering keeps every copy of a passing element and no copy of a failing one. */
  lemma {:induction false} FilterCounts<T(!new)>(p: T -> bool, s: seq<T>)
    ensures forall x :: multiset(Filter(p, s))[x] == if p(x) then multiset(s)[x] else 0
  {
    if s != [] {
      FilterCounts(p, s[1..]);
      assert s == [s[0]] + s[1..];
    }
  }

  /** A filter that every element passes keeps the sequence whole. */
  lemma {:induction false} FilterAll<T(!new)>(p: T -> bool, s: seq<T>)
    requires forall x :: x in s ==> p(x)
    ensures Filter(p, s) == s
  {
    if s != [] {
      FilterAll(p, s[1..]);
    }
  }

  predicate Sorted(s: seq<int>)
  {
    forall i, j :: 0 <= i < j < |s| ==> s[i] <= s[j]
  }

  predicate Increasing(s: seq<int>)
  {
    forall i, j :: 0 <= i < j < |s| ==> s[i] < s[j]
  }

  predicate Distinct<T(==)>(s: seq<T>)
  {
    forall i, j :: 0 <= i < j < |s| ==> s[i] != s[j]
  }

  /** Inserts `x` into a sorted sequence, keeping it sorted. */
  function Insert(x: int, s: seq<int>): (r: seq<int>)
    requires Sorted(s)
    ensures Sorted(r)
    ensures |r| == |s| + 1
    ensures multiset(r) == multiset(s) + multiset{x}
    ensures forall y :: y in r ==> y == x || y in s
  {
    if s == [] || x <= s[0] then
      [x] + s
    else
      var tail := Insert(x, s[1..]);
      assert s == [s[0]] + s[1..];
      assert forall y :: y in tail ==> s[0] <= y;
      SortedCons(s[0], tail);
      assert multiset([s[0]] + tail) == multiset{s[0]} + multiset(tail);
      [s[0]] + tail
  }

  lemma IncreasingCons(h: int, t: seq<int>)
    requires Increasing(t) && forall y :: y in t ==> h < y
    ensures Increasing([h] + t)
  {
    forall i, j | 0 <= i < j < |[h] + t|
      ensures ([h] + t)[i] < ([h] + t)[j]
    {
      if i > 0 {
        assert ([h] + t)[i] == t[i - 1];
      }
      assert ([h] + t)[j] == t[j - 1] && t[j - 1] in t;
    }
  }

  lemma SortedCons(h: int, t: seq<int>)
    requires Sorted(t) && forall y :: y in t ==> h <= y
    ensures Sorted([h] + t)
  {
    forall i, j | 0 <= i < j < |[h] + t|
      ensures ([h] + t)[i] <= ([h] + t)[j]
    {
      if i > 0 {
        assert ([h] + t)[i] == t[i - 1];
      }
      assert ([h] + t)[j] == t[j - 1] && t[j - 1] in t;
    }
  }

  /** The values of `s` in ascending order (numpy's sort of the data before a quantile). */
  function SortAsc(s: seq<int>): (r: seq<int>)
    ensures Sorted(r)
    ensures |r| == |s|
    ensures multiset(r) == multiset(s)
  {
    if s == [] then
      []
    else
      assert s == [s[0]] + s[1..];
      Insert(s[0], SortAsc(s[1..]))
  }

  /** The first and last elements of a sorted sequence bound every element. */
  lemma SortedBounds(s: seq<int>, x: int)
    requires Sorted(s) && x in s
    ensures s[0] <= x <= s[|s| - 1]
  {
  }

  /** The sequence 1, 2, ..., n. */
  function OneTo(n: nat): (r: seq<int>)
    ensures |r| == n
    ensures forall i :: 0 <= i < n ==> r[i] == i + 1
  {
    seq(n, i => i + 1)
  }

  lemma {:induction false} IncreasingSpread(s: seq<int>, i: int, j: int)
    requires Increasing(s) && 0 <= i <= j < |s|
    ensures s[j] - s[i] >= j - i
  {
    if i < j {
      IncreasingSpread(s, i, j - 1);
    }
  }

  /** n strictly increasing values that all lie in 1..n are exactly 1, 2, ..., n. */
  lemma IncreasingWithinOneTo(s: seq<int>)
    requires Increasing(s)
    requires forall x :: x in s ==> 1 <= x <= |s|
    ensures s == OneTo(|s|)
  {
    var n := |s|;
    forall i | 0 <= i < n
      ensures s[i] == i + 1
    {
      IncreasingSpread(s, 0, i);
      IncreasingSpread(s, i, n - 1);
      assert s[0] in s && s[n - 1] in s;
    }
  }

  /** In a sequence without repetitions every value occurs at most once. */
  lemma {:induction false} DistinctCount<T>(s: seq<T>, v: T)
    requires Distinct(s)
    ensures multiset(s)[v] <= 1
  {
    if s != [] {
      assert s == [s[0]] + s[1..];
      assert Distinct(s[1..]);
      DistinctCount(s[1..], v);
      if s[0] == v {
        assert v !in s[1..];
      }
    }
  }

  /** Two positions holding the same value give that value multiplicity at least two. */
  lemma TwoCopies<T>(t: seq<T>, i: int, j: int)
    requires 0 <= i < j < |t| && t[i] == t[j]
    ensures multiset(t)[t[i]] >= 2
  {
    assert t == t[..i] + ([t[i]] + (t[i + 1..j] + ([t[j]] + t[j + 1..])));
  }

  /** Sorting a sequence without repetitions gives a strictly increasing sequence. */
  lemma SortedOfDistinct(s: seq<int>, t: seq<int>)
    requires Distinct(s) && Sorted(t) && multiset(t) == multiset(s)
    ensures Increasing(t)
  {
    forall i, j | 0 <= i < j < |t|
      ensures t[i] < t[j]
    {
      if t[i] == t[j] {
        TwoCopies(t, i, j);
        DistinctCount(s, t[i]);
      }
    }
  }

  /** The bound of Interval as a predicate, so that facts about interval members have a
      term to be triggered on. */
  predicate Between(lo: int, x: int, hi: int)
  {
    lo < x <= hi
  }

  /** The integers of the half-open interval (lo, hi]. */
  function Interval(lo: int, hi: int): set<int>
  {
    set x: int | lo < x <= hi && Between(lo, x, hi)
  }

  lemma {:induction false} IntervalCard(lo: int, hi: int)
    requires lo <= hi
    ensures |Interval(lo, hi)| == hi - lo
    decreases hi - lo
  {
    if lo < hi {
      IntervalCard(lo, hi - 1);
      assert Interval(lo, hi) == Interval(lo, hi - 1) + {hi};
    } else {
      assert Interval(lo, hi) == {};
    }
  }

  /** The positions of a non-empty sequence satisfying `p`: those of all but the last
      element, and the last one if it satisfies `p`. */
  lemma PositionsSnoc(s: seq<int>, p: int -> bool)
    requires s != []
    ensures var m := |s| - 1;
            (set i | 0 <= i < |s| && p(s[i])) ==
            (set i | 0 <= i < |s[..m]| && p(s[..m][i])) + (if p(s[m]) then {m} else {})
  {
    var m := |s| - 1;
    assert forall i :: 0 <= i < m ==> s[..m][i] == s[i];
  }

  /** The values of a non-empty sequence satisfying `p`: those of all but the last
      element, and the last one if it satisfies `p`. */
  lemma ValuesSnoc(s: seq<int>, p: int -> bool)
    requires s != []
    ensures var m := |s| - 1;
            (set x | x in s && p(x)) ==
            (set x | x in s[..m] && p(x)) + (if p(s[m]) then {s[m]} else {})
  {
    var m := |s| - 1;
    assert s == s[..m] + [s[m]];
  }

  /** For a sequence without repetitions, counting positions whose value satisfies `p`
      is the same as counting such values. */
  lemma {:induction false} CountByValue(s: seq<int>, p: int -> bool)
    requires Distinct(s)
    ensures |set i | 0 <= i < |s| && p(s[i])| == |set x | x in s && p(x)|
  {
    if s != [] {
      var m := |s| - 1;
      var t := s[..m];
      assert Distinct(t);
      CountByValue(t, p);
      PositionsSnoc(s, p);
      ValuesSnoc(s, p);
      assert s[m] !in t by {
        forall k | 0 <= k < m ensures t[k] != s[m] {
          assert s[k] != s[m];
        }
      }
      assert m !in (set i | 0 <= i < |t| && p(t[i]));
    }
  }
}

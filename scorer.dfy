/** RFM scores (main.py:86-89). Recency is cut into five equal-frequency bins labelled
    5, 4, 3, 2, 1 (the most recent customers get 5). Frequency is first ranked with ties
    broken by row order (rank method "first"), and the ranks are cut into five bins
    labelled 1..5. The score code is the recency digit followed by the frequency digit. */
module Scorer {
  import opened Seqs
  import opened Wrappers
  import opened Quantile

  /** How many elements of `s` are below `v`. */
  function CountLess(s: seq<int>, v: int): nat
  {
    if s == [] then 0 else CountLess(s[..|s| - 1], v) + (if s[|s| - 1] < v then 1 else 0)
  }

  /** How many elements of `s` equal `v`. */
  function CountEq(s: seq<int>, v: int): nat
  {
    if s == [] then 0 else CountEq(s[..|s| - 1], v) + (if s[|s| - 1] == v then 1 else 0)
  }

  /** The rank (1-based) of position i when ties are ranked in the order they appear:
      one more than the number of smaller values and of equal values before it. */
  function Rank(s: seq<int>, i: int): (r: int)
    requires 0 <= i < |s|
    ensures 1 <= r <= |s|
  {
    CountEqPrefix(s, i, |s|, s[i]);
    assert s[..|s|] == s;
    CountsBounded(s, s[i]);
    1 + CountLess(s, s[i]) + CountEq(s[..i], s[i])
  }

  /** rank(method="first") of a whole column: ranks run from 1 to n (RankOrder and
      RanksArePermutation give their order). */
  function Ranks(s: seq<int>): (r: seq<int>)
    ensures |r| == |s|
    ensures forall i :: 0 <= i < |s| ==> r[i] == Rank(s, i)
    ensures forall i :: 0 <= i < |s| ==> 1 <= r[i] <= |s|
  {
    seq(|s|, i requires 0 <= i < |s| => Rank(s, i))
  }

  lemma {:induction false} CountsBounded(s: seq<int>, v: int)
    ensures CountLess(s, v) + CountEq(s, v) <= |s|
  {
    if s != [] {
      CountsBounded(s[..|s| - 1], v);
    }
  }

  /** Values below w include all values below or equal to a smaller v. */
  lemma {:induction false} CountLessGrows(s: seq<int>, v: int, w: int)
    requires v < w
    ensures CountLess(s, v) + CountEq(s, v) <= CountLess(s, w)
  {
    if s != [] {
      CountLessGrows(s[..|s| - 1], v, w);
    }
  }

  /** A longer prefix has at least as many copies of v, and one more when it takes in
      another copy. */
  lemma {:induction false} CountEqPrefix(s: seq<int>, i: int, j: int, v: int)
    requires 0 <= i < j <= |s|
    ensures CountEq(s[..i], v) + (if s[i] == v then 1 else 0) <= CountEq(s[..j], v)
    decreases j - i
  {
    assert s[..i + 1][..i] == s[..i];
    if i + 1 < j {
      CountEqPrefix(s, i + 1, j, v);
      CountEqMono(s, i + 1, j, v);
    }
  }

  lemma {:induction false} CountEqMono(s: seq<int>, i: int, j: int, v: int)
    requires 0 <= i <= j <= |s|
    ensures CountEq(s[..i], v) <= CountEq(s[..j], v)
    decreases j - i
  {
    if i < j {
      CountEqMono(s, i, j - 1, v);
      assert s[..j][..j - 1] == s[..j - 1];
    }
  }

  /** Rank order is value order, with equal values in row order. */
  lemma RankOrder(s: seq<int>, i: int, j: int)
    requires 0 <= i < |s| && 0 <= j < |s| && i != j
    ensures Rank(s, i) < Rank(s, j) <==> s[i] < s[j] || (s[i] == s[j] && i < j)
  {
    assert s[..|s|] == s;
    if s[i] < s[j] {
      CountEqPrefix(s, i, |s|, s[i]);
      CountLessGrows(s, s[i], s[j]);
    } else if s[j] < s[i] {
      CountEqPrefix(s, j, |s|, s[j]);
      CountLessGrows(s, s[j], s[i]);
    } else if i < j {
      CountEqPrefix(s, i, j, s[i]);
    } else {
      CountEqPrefix(s, j, i, s[j]);
    }
  }

  /** The ranks are a permutation of 1..n: sorted, they are exactly 1, 2, ..., n. */
  lemma RanksArePermutation(s: seq<int>)
    ensures SortAsc(Ranks(s)) == OneTo(|s|)
    ensures multiset(Ranks(s)) == multiset(OneTo(|s|))
  {
    var r := Ranks(s);
    DistinctRanks(s);
    var t := SortAsc(r);
    SortedOfDistinct(r, t);
    forall x | x in t ensures 1 <= x <= |t| {
      assert x in multiset(r);
      var i :| 0 <= i < |r| && r[i] == x;
    }
    IncreasingWithinOneTo(t);
  }

  /** The recency score of every customer: qcut bins labelled 5, 4, 3, 2, 1. */
  function RecencyScores(recency: seq<int>): (r: Result<seq<int>, CutError>)
    ensures r.Err? <==> QCut(recency).Err?
    ensures r.Ok? ==> |r.value| == |recency|
    ensures r.Ok? ==> forall i :: 0 <= i < |recency| ==> 1 <= r.value[i] <= 5
    ensures r.Ok? ==> QCut(recency).Ok?
    ensures r.Ok? ==> forall i :: 0 <= i < |recency| ==> r.value[i] == 6 - QCut(recency).value[i]
  {
    match QCut(recency)
    case Err(e) => Err(e)
    case Ok(bins) => Ok(seq(|bins|, i requires 0 <= i < |bins| => 6 - bins[i]))
  }

  /** A customer whose last purchase is no more recent than another's never scores higher. */
  lemma RecencyScoreAntitone(recency: seq<int>, i: int, j: int)
    requires RecencyScores(recency).Ok? && 0 <= i < |recency| && 0 <= j < |recency|
    requires recency[i] <= recency[j]
    ensures RecencyScores(recency).value[i] >= RecencyScores(recency).value[j]
  {
    QCutMonotone(recency, i, j);
  }

  /** The most recent customers score 5. */
  lemma MostRecentScoreFive(recency: seq<int>, i: int)
    requires RecencyScores(recency).Ok? && 0 <= i < |recency|
    requires forall j :: 0 <= j < |recency| ==> recency[i] <= recency[j]
    ensures RecencyScores(recency).value[i] == 5
  {
    QCutMinimumInFirstBin(recency, i);
  }

  /** When every customer has the same recency, the recency cut fails. */
  lemma RecencyFailsWhenUniform(recency: seq<int>)
    requires forall i, j :: 0 <= i < |recency| && 0 <= j < |recency| ==> recency[i] == recency[j]
    ensures RecencyScores(recency).Err?
  {
    QCutFailsOnConstant(recency);
  }

  /** The frequency score of every customer: qcut of the first-ranks, bins labelled 1..5. */
  function FrequencyScores(frequency: seq<int>): (r: Result<seq<int>, CutError>)
    ensures r.Ok? ==> |r.value| == |frequency|
    ensures r.Ok? ==> forall i :: 0 <= i < |frequency| ==> 1 <= r.value[i] <= 5
  {
    QCut(Ranks(frequency))
  }

  /** The bin of rank r among n ranks: the least k with 5(r-1) <= k(n-1). */
  function RankBucket(n: int, r: int): (k: int)
    requires 2 <= n && 1 <= r <= n
    ensures 1 <= k <= 5
    ensures 5 * (r - 1) <= k * (n - 1)
    ensures k == 1 || (k - 1) * (n - 1) < 5 * (r - 1)
  {
    var m := n - 1;
    if 5 * (r - 1) <= m then 1
    else if 5 * (r - 1) <= 2 * m then 2
    else if 5 * (r - 1) <= 3 * m then 3
    else if 5 * (r - 1) <= 4 * m then 4
    else 5
  }

  /** The scaled edges of the ranks 1..n are 5 + k(n-1). */
  lemma EdgesOfRanks(n: int)
    requires n >= 1
    ensures forall k :: 0 <= k < 6 ==> Edges(OneTo(n))[k] == 5 + k * (n - 1)
  {
    var s := OneTo(n);
    forall k | 0 <= k < 6 ensures ScaledQuantile(s, k) == 5 + k * (n - 1) {
      MulBound(k, n - 1);
      var pos := k * (n - 1);
      var j := pos / 5;
      assert s[j] == j + 1;
      if pos % 5 != 0 {
        assert s[j + 1] - s[j] == 1;
      }
    }
  }

  lemma MulStrict(k: int, l: int, m: int)
    requires 0 <= k < l && 1 <= m
    ensures k * m < l * m
  {
    MulMono(k + 1, l, m);
    assert (k + 1) * m == k * m + m;
  }

  lemma EdgesOfRanksDistinct(n: int)
    requires n >= 1
    ensures Distinct(Edges(OneTo(n))) <==> n >= 2
  {
    EdgesOfRanks(n);
    var e := Edges(OneTo(n));
    if n >= 2 {
      forall k, l | 0 <= k < l < 6 ensures e[k] != e[l] {
        MulStrict(k, l, n - 1);
      }
    } else {
      assert e[0] == e[1];
    }
  }

  /** The frequency cut fails exactly when there are fewer than two customers: only then
      do two rank edges coincide. */
  lemma FrequencyFailsIff(frequency: seq<int>)
    ensures FrequencyScores(frequency).Err? <==> |frequency| <= 1
  {
    RanksArePermutation(frequency);
    if |frequency| >= 1 {
      EdgesOfRanksDistinct(|frequency|);
    }
  }

  /** Rank r is in bucket k exactly when 5r lies in the k-th bin of the scaled rank
      edges 5 + k(n-1). */
  lemma RankBucketIsBin(n: int, r: int, k: int)
    requires 2 <= n && 1 <= r <= n && 1 <= k <= 5
    ensures RankBucket(n, r) == k <==>
      5 * r <= 5 + k * (n - 1) && (k == 1 || 5 + (k - 1) * (n - 1) < 5 * r)
  {
    var m := n - 1;
    MulMono(k - 1, k, m);
    if RankBucket(n, r) < k {
      MulMono(RankBucket(n, r), k - 1, m);
    }
    if RankBucket(n, r) > k {
      MulMono(k, RankBucket(n, r) - 1, m);
    }
  }

  /** A successful frequency score is the bin of the customer's first-rank. */
  lemma FrequencyScoreIsRankBucket(frequency: seq<int>, i: int)
    requires FrequencyScores(frequency).Ok? && 0 <= i < |frequency|
    ensures |frequency| >= 2 && 1 <= Rank(frequency, i) <= |frequency|
    ensures FrequencyScores(frequency).value[i] == RankBucket(|frequency|, Rank(frequency, i))
  {
    var n := |frequency|;
    FrequencyFailsIff(frequency);
    RanksArePermutation(frequency);
    EdgesOfRanks(n);
    var r := Rank(frequency, i);
    var k := FrequencyScores(frequency).value[i];
    QCutBin(Ranks(frequency), i, k);
    RankBucketIsBin(n, r, k);
  }

  /** A customer with fewer invoices never gets a higher frequency score, and among equal
      frequencies an earlier row never gets a higher score. */
  lemma FrequencyScoreMonotone(frequency: seq<int>, i: int, j: int)
    requires FrequencyScores(frequency).Ok? && 0 <= i < |frequency| && 0 <= j < |frequency|
    requires frequency[i] < frequency[j] || (frequency[i] == frequency[j] && i <= j)
    ensures FrequencyScores(frequency).value[i] <= FrequencyScores(frequency).value[j]
  {
    if i != j {
      RankOrder(frequency, i, j);
      QCutMonotone(Ranks(frequency), i, j);
    }
  }

  /** The number of customers with score k. */
  function ScoreCount(scores: seq<int>, k: int): nat
  {
    |set i | 0 <= i < |scores| && scores[i] == k|
  }

  /** The upper end of bin k among n ranks: 1 + floor(k(n-1)/5); bin 0 ends at 0. */
  function BinTop(n: int, k: int): int
    requires n >= 2 && 0 <= k <= 5
  {
    if k == 0 then 0 else 1 + (k * (n - 1)) / 5
  }

  /** Rank r is in bin k exactly when it lies in (BinTop(k-1), BinTop(k)]. */
  lemma RankBucketInterval(n: int, r: int, k: int)
    requires 2 <= n && 1 <= r <= n && 1 <= k <= 5
    ensures RankBucket(n, r) == k <==> BinTop(n, k - 1) < r <= BinTop(n, k)
  {
    var m := n - 1;
    var x := r - 1;
    assert 5 * x <= 1 * m <==> x <= m / 5;
    assert 5 * x <= 2 * m <==> x <= (2 * m) / 5;
    assert 5 * x <= 3 * m <==> x <= (3 * m) / 5;
    assert 5 * x <= 4 * m <==> x <= (4 * m) / 5;
    assert 5 * x <= 5 * m;
  }

  /** Rank x is one of the n ranks and lies in bin k. */
  predicate InBin(n: int, k: int, x: int)
  {
    2 <= n && 1 <= k <= 5 && 1 <= x <= n && RankBucket(n, x) == k
  }

  lemma DistinctRanks(frequency: seq<int>)
    ensures Distinct(Ranks(frequency))
  {
    var r := Ranks(frequency);
    forall i, j | 0 <= i < j < |r| ensures r[i] != r[j] {
      RankOrder(frequency, i, j);
      RankOrder(frequency, j, i);
    }
  }

  /** The customers in frequency bin k are those whose rank is in bin k. */
  lemma ScoresByRank(frequency: seq<int>, k: int)
    requires FrequencyScores(frequency).Ok? && 1 <= k <= 5
    ensures var scores := FrequencyScores(frequency).value;
            var r := Ranks(frequency);
            (set i | 0 <= i < |scores| && scores[i] == k) ==
            (set i | 0 <= i < |r| && InBin(|frequency|, k, r[i]))
  {
    var n := |frequency|;
    var scores := FrequencyScores(frequency).value;
    var r := Ranks(frequency);
    forall i | 0 <= i < n ensures scores[i] == k <==> InBin(n, k, r[i]) {
      FrequencyScoreIsRankBucket(frequency, i);
    }
  }

  /** The ranks in bin k form the interval (BinTop(k-1), BinTop(k)]. */
  lemma RanksInBin(frequency: seq<int>, k: int)
    requires |frequency| >= 2 && 1 <= k <= 5
    ensures var n := |frequency|;
            (set x | x in Ranks(frequency) && InBin(n, k, x)) == Interval(BinTop(n, k - 1), BinTop(n, k))
  {
    var n := |frequency|;
    var r := Ranks(frequency);
    RanksArePermutation(frequency);
    var lo, hi := BinTop(n, k - 1), BinTop(n, k);
    BinTopBounds(n, k);
    forall x ensures (x in r && InBin(n, k, x)) <==> x in Interval(lo, hi) {
      assert x in r <==> x in multiset(OneTo(n));
      assert x in multiset(OneTo(n)) <==> 1 <= x <= n by {
        if 1 <= x <= n {
          assert OneTo(n)[x - 1] == x;
        }
      }
      if 1 <= x <= n {
        RankBucketInterval(n, x, k);
      }
    }
  }

  /** Counting the customers whose rank is in bin k is counting the ranks in bin k. */
  lemma RankCountByValue(frequency: seq<int>, k: int)
    ensures var n, r := |frequency|, Ranks(frequency);
            |set i | 0 <= i < |r| && InBin(n, k, r[i])| == |set x | x in r && InBin(n, k, x)|
  {
    var n, r := |frequency|, Ranks(frequency);
    var p := x => InBin(n, k, x);
    DistinctRanks(frequency);
    CountByValue(r, p);
    assert (set i | 0 <= i < |r| && p(r[i])) == (set i | 0 <= i < |r| && InBin(n, k, r[i]));
    assert (set x | x in r && p(x)) == (set x | x in r && InBin(n, k, x));
  }

  /** Bin k of the frequency scores holds exactly BinTop(k) - BinTop(k-1) customers. */
  lemma FrequencyBinSize(frequency: seq<int>, k: int)
    requires FrequencyScores(frequency).Ok? && 1 <= k <= 5
    ensures |frequency| >= 2
    ensures ScoreCount(FrequencyScores(frequency).value, k) ==
      BinTop(|frequency|, k) - BinTop(|frequency|, k - 1)
  {
    var n := |frequency|;
    FrequencyFailsIff(frequency);
    ScoresByRank(frequency, k);
    RankCountByValue(frequency, k);
    RanksInBin(frequency, k);
    BinTopBounds(n, k);
    IntervalCard(BinTop(n, k - 1), BinTop(n, k));
  }

  lemma BinTopBounds(n: int, k: int)
    requires n >= 2 && 1 <= k <= 5
    ensures 0 <= BinTop(n, k - 1) <= BinTop(n, k) <= n
  {
    var m := n - 1;
    assert (5 * m) / 5 == m;
    assert m / 5 <= (2 * m) / 5 <= (3 * m) / 5 <= (4 * m) / 5 <= m;
    if k == 1 {
    } else if k == 2 {
    } else if k == 3 {
    } else if k == 4 {
    } else {
    }
  }

  /** Adding m to a number adds floor(m/5) or one more to its fifth, rounded down. */
  lemma DivDiff(a: int, m: int)
    requires 0 <= a && 0 <= m
    ensures m / 5 <= (a + m) / 5 - a / 5 <= m / 5 + 1
  {
    var qa, ra, q, rm := a / 5, a % 5, m / 5, m % 5;
    assert a + m == 5 * (qa + q) + (ra + rm);
    assert (a + m) / 5 == qa + q + (ra + rm) / 5;
  }

  /** Bin k spans floor((n-1)/5) or one more ranks, and bin 1 one more. */
  lemma BinWidth(n: int, k: int)
    requires n >= 2 && 1 <= k <= 5
    ensures var q := (n - 1) / 5;
            q <= BinTop(n, k) - BinTop(n, k - 1) <= q + 1 &&
            (k == 1 ==> BinTop(n, k) - BinTop(n, k - 1) == q + 1)
  {
    var m := n - 1;
    if k >= 2 {
      MulBound(k - 1, m);
      assert k * m == (k - 1) * m + m;
      DivDiff((k - 1) * m, m);
    }
  }

  /** Bin sizes differ by at most one: with q = floor((n-1)/5), every bin holds q or q+1
      customers, bin 1 holds q+1; so from five customers on no bin is empty. */
  lemma FrequencyBinsBalanced(frequency: seq<int>, k: int)
    requires FrequencyScores(frequency).Ok? && 1 <= k <= 5
    ensures var q := (|frequency| - 1) / 5;
            var size := ScoreCount(FrequencyScores(frequency).value, k);
            q <= size <= q + 1 && (k == 1 ==> size == q + 1)
    ensures |frequency| >= 5 ==> ScoreCount(FrequencyScores(frequency).value, k) >= 1
  {
    FrequencyBinSize(frequency, k);
    BinWidth(|frequency|, k);
  }

  /** The character of a score digit. */
  function DigitChar(d: int): (c: char)
    requires 0 <= d <= 9
    ensures '0' <= c <= '9'
  {
    ('0' as int + d) as char
  }

  /** The two-character score code (main.py:89): recency digit, then frequency digit. */
  function ScoreCode(recencyScore: int, frequencyScore: int): (code: string)
    requires 1 <= recencyScore <= 5 && 1 <= frequencyScore <= 5
    ensures |code| == 2
    ensures code[0] == DigitChar(recencyScore) && code[1] == DigitChar(frequencyScore)
    ensures '1' <= code[0] <= '5' && '1' <= code[1] <= '5'
  {
    [DigitChar(recencyScore), DigitChar(frequencyScore)]
  }

  /** Reads a two-digit score code back. */
  function ParseScoreCode(code: string): (rf: (int, int))
    requires |code| == 2 && '0' <= code[0] <= '9' && '0' <= code[1] <= '9'
  {
    (code[0] as int - '0' as int, code[1] as int - '0' as int)
  }

  /** The score code determines both scores. */
  lemma ScoreCodeRoundTrip(recencyScore: int, frequencyScore: int)
    requires 1 <= recencyScore <= 5 && 1 <= frequencyScore <= 5
    ensures ParseScoreCode(ScoreCode(recencyScore, frequencyScore)) == (recencyScore, frequencyScore)
  {
  }
}

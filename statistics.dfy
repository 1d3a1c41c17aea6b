/**
 * Descriptive statistics over exact real-valued samples, as numpy and pandas
 * compute them: mean, median, minimum, maximum and percentiles with numpy's
 * default linear interpolation (rank q·(n−1) over the sorted samples, blending
 * the two neighbouring order statistics).
 */
module Statistics {

  function Sum(xs: seq<real>): real {
    if xs == [] then 0.0 else xs[0] + Sum(xs[1..])
  }

  /** `np.min`. */
  function Smallest(xs: seq<real>): real
    requires xs != []
  {
    if |xs| == 1 then xs[0]
    else
      var rest := Smallest(xs[1..]);
      if xs[0] <= rest then xs[0] else rest
  }

  /** `np.max`. */
  function Largest(xs: seq<real>): real
    requires xs != []
  {
    if |xs| == 1 then xs[0]
    else
      var rest := Largest(xs[1..]);
      if xs[0] >= rest then xs[0] else rest
  }

  /** The minimum is a sample that no other sample is below. */
  lemma {:induction false} SmallestIsLeast(xs: seq<real>)
    requires xs != []
    ensures Smallest(xs) in xs
    ensures forall i :: 0 <= i < |xs| ==> Smallest(xs) <= xs[i]
  {
    if |xs| > 1 {
      SmallestIsLeast(xs[1..]);
      assert forall i :: 1 <= i < |xs| ==> xs[i] == xs[1..][i - 1];
    }
  }

  /** The maximum is a sample that no other sample is above. */
  lemma {:induction false} LargestIsGreatest(xs: seq<real>)
    requires xs != []
    ensures Largest(xs) in xs
    ensures forall i :: 0 <= i < |xs| ==> xs[i] <= Largest(xs)
  {
    if |xs| > 1 {
      LargestIsGreatest(xs[1..]);
      assert forall i :: 1 <= i < |xs| ==> xs[i] == xs[1..][i - 1];
    }
  }

  /** Samples that all lie in [lo, hi] add up to between n·lo and n·hi. */
  lemma {:induction false} SumBounds(xs: seq<real>, lo: real, hi: real)
    requires forall i :: 0 <= i < |xs| ==> lo <= xs[i] <= hi
    ensures lo * |xs| as real <= Sum(xs) <= hi * |xs| as real
  {
    if xs != [] {
      assert forall i :: 0 <= i < |xs[1..]| ==> xs[1..][i] == xs[i + 1];
      SumBounds(xs[1..], lo, hi);
      assert |xs| as real == 1.0 + |xs[1..]| as real;
    }
  }

  /** Dividing bounds on a total by a positive count gives bounds on the average. */
  lemma DivideBounds(total: real, n: real, lo: real, hi: real)
    requires n > 0.0 && lo * n <= total <= hi * n
    ensures lo <= total / n <= hi
  {
    assert (total / n) * n == total;
  }

  /** `np.mean`: the arithmetic mean. */
  function Mean(xs: seq<real>): real
    requires xs != []
  {
    Sum(xs) / |xs| as real
  }

  /** The mean lies between the smallest and the largest sample. */
  lemma MeanBetween(xs: seq<real>)
    requires xs != []
    ensures Smallest(xs) <= Mean(xs) <= Largest(xs)
  {
    SmallestIsLeast(xs);
    LargestIsGreatest(xs);
    SumBounds(xs, Smallest(xs), Largest(xs));
    DivideBounds(Sum(xs), |xs| as real, Smallest(xs), Largest(xs));
  }

  ghost predicate Sorted(s: seq<real>) {
    forall i, j :: 0 <= i <= j < |s| ==> s[i] <= s[j]
  }

  /** Insert `x` before the first element not below it. */
  function Insert(x: real, s: seq<real>): (r: seq<real>)
    ensures |r| == |s| + 1
  {
    if s == [] || x <= s[0] then [x] + s else [s[0]] + Insert(x, s[1..])
  }

  /** A value no greater than any of some ascending samples can go in front of them. */
  lemma SortedCons(a: real, t: seq<real>)
    requires Sorted(t) && forall i :: 0 <= i < |t| ==> a <= t[i]
    ensures Sorted([a] + t)
  {
    var u := [a] + t;
    forall i, j | 0 <= i <= j < |u| ensures u[i] <= u[j] {
      if i > 0 {
        assert u[i] == t[i - 1] && u[j] == t[j - 1];
      } else if j > 0 {
        assert u[j] == t[j - 1];
      }
    }
  }

  /** A lower bound of every sample bounds each sample value. */
  lemma BoundedMember(a: real, y: real, t: seq<real>)
    requires forall i :: 0 <= i < |t| ==> a <= t[i]
    requires y in multiset(t)
    ensures a <= y
  {
    assert y in t;
    var k :| 0 <= k < |t| && t[k] == y;
  }

  /** Inserting into ascending samples keeps them ascending and adds exactly `x`. */
  lemma {:induction false} InsertSorted(x: real, s: seq<real>)
    requires Sorted(s)
    ensures Sorted(Insert(x, s))
    ensures multiset(Insert(x, s)) == multiset(s) + multiset{x}
  {
    if s == [] || x <= s[0] {
      assert Insert(x, s) == [x] + s;
      forall i | 0 <= i < |s| ensures x <= s[i] {
        assert s[0] <= s[i];
      }
      SortedCons(x, s);
    } else {
      var t := s[1..];
      assert Sorted(t) by {
        forall i, j | 0 <= i <= j < |t| ensures t[i] <= t[j] {
          assert t[i] == s[i + 1] && t[j] == s[j + 1];
        }
      }
      InsertSorted(x, t);
      var rest := Insert(x, t);
      assert s == [s[0]] + t;
      assert Insert(x, s) == [s[0]] + rest;
      forall i | 0 <= i < |t| ensures s[0] <= t[i] {
        assert t[i] == s[i + 1];
      }
      forall i | 0 <= i < |rest| ensures s[0] <= rest[i] {
        assert rest[i] in multiset(rest);
        if rest[i] != x {
          BoundedMember(s[0], rest[i], t);
        }
      }
      SortedCons(s[0], rest);
    }
  }

  /** The samples in ascending order (numpy sorts before taking order statistics). */
  function Sort(xs: seq<real>): (r: seq<real>)
    ensures |r| == |xs|
  {
    if xs == [] then [] else Insert(xs[0], Sort(xs[1..]))
  }

  /** Sorting yields an ascending rearrangement of the samples. */
  lemma {:induction false} SortSorts(xs: seq<real>)
    ensures Sorted(Sort(xs))
    ensures multiset(Sort(xs)) == multiset(xs)
  {
    if xs != [] {
      SortSorts(xs[1..]);
      InsertSorted(xs[0], Sort(xs[1..]));
      assert xs == [xs[0]] + xs[1..];
    }
  }

  /** The first and last order statistics are the smallest and the largest sample. */
  lemma SortedEnds(xs: seq<real>)
    requires xs != []
    ensures Sort(xs)[0] == Smallest(xs)
    ensures Sort(xs)[|xs| - 1] == Largest(xs)
  {
    var s := Sort(xs);
    var n := |s|;
    SortSorts(xs);
    SmallestIsLeast(xs);
    LargestIsGreatest(xs);
    assert s[0] in multiset(xs) && s[n - 1] in multiset(xs);
    var a :| 0 <= a < |xs| && xs[a] == s[0];
    var b :| 0 <= b < |xs| && xs[b] == s[n - 1];
    assert Smallest(xs) <= xs[a] && xs[b] <= Largest(xs);
    assert Smallest(xs) in multiset(s) && Largest(xs) in multiset(s);
    var c :| 0 <= c < n && s[c] == Smallest(xs);
    var d :| 0 <= d < n && s[d] == Largest(xs);
    assert s[0] <= s[c] && s[d] <= s[n - 1];
  }

  /** 0 ≤ q ≤ 1 scales a non-negative m into [0, m]. */
  lemma ScaleWithin(q: real, m: real)
    requires 0.0 <= q <= 1.0 && 0.0 <= m
    ensures 0.0 <= q * m <= m
  {
    assert m - q * m == (1.0 - q) * m;
  }

  /** Where the q-quantile of n sorted samples falls: an index and a fraction of the next gap. */
  function Rank(n: nat, q: real): (p: (int, real))
    requires n > 0 && 0.0 <= q <= 1.0
    ensures 0 <= p.0 < n && 0.0 <= p.1 < 1.0
    ensures p.0 + 1 == n ==> p.1 == 0.0
  {
    var rank := q * (n - 1) as real;
    ScaleWithin(q, (n - 1) as real);
    var lo := rank.Floor;
    assert lo as real <= rank <= (n - 1) as real;
    assert lo <= n - 1;
    (lo, rank - lo as real)
  }

  /** numpy's linear-interpolation quantile of samples already in ascending order. */
  function QuantileOfSorted(s: seq<real>, q: real): real
    requires s != [] && 0.0 <= q <= 1.0
  {
    var p := Rank(|s|, q);
    if p.0 + 1 < |s| then s[p.0] + p.1 * (s[p.0 + 1] - s[p.0]) else s[p.0]
  }

  /** A quantile of sorted samples lies between the order statistics around its rank. */
  lemma QuantileBetween(s: seq<real>, q: real)
    requires s != [] && 0.0 <= q <= 1.0 && Sorted(s)
    ensures s[Rank(|s|, q).0] <= QuantileOfSorted(s, q)
    ensures Rank(|s|, q).0 + 1 < |s| ==> QuantileOfSorted(s, q) <= s[Rank(|s|, q).0 + 1]
    ensures Rank(|s|, q).0 + 1 == |s| ==> QuantileOfSorted(s, q) == s[|s| - 1]
  {
    var p := Rank(|s|, q);
    if p.0 + 1 < |s| {
      var gap := s[p.0 + 1] - s[p.0];
      assert s[p.0] <= s[p.0 + 1];
      ScaleWithin(p.1, gap);
      assert p.1 * gap <= gap;
      assert s[p.0] + p.1 * gap <= s[p.0 + 1];
      assert QuantileOfSorted(s, q) == s[p.0] + p.1 * gap;
    }
  }

  /** `np.percentile(xs, 100·q)` and `Series.quantile(q)`, both with linear interpolation. */
  function Quantile(xs: seq<real>, q: real): real
    requires xs != [] && 0.0 <= q <= 1.0
  {
    QuantileOfSorted(Sort(xs), q)
  }

  /** Every quantile lies between the smallest and the largest sample. */
  lemma QuantileBetweenExtremes(xs: seq<real>, q: real)
    requires xs != [] && 0.0 <= q <= 1.0
    ensures Smallest(xs) <= Quantile(xs, q) <= Largest(xs)
  {
    var s := Sort(xs);
    var p := Rank(|s|, q);
    SortSorts(xs);
    QuantileBetween(s, q);
    SortedEnds(xs);
    assert s[0] <= s[p.0] && (p.0 + 1 < |s| ==> s[p.0 + 1] <= s[|s| - 1]);
  }

  /** A larger q never gives an earlier rank. */
  lemma RankMonotone(n: nat, q1: real, q2: real)
    requires n > 0 && 0.0 <= q1 <= q2 <= 1.0
    ensures Rank(n, q1).0 < Rank(n, q2).0 || (Rank(n, q1).0 == Rank(n, q2).0 && Rank(n, q1).1 <= Rank(n, q2).1)
  {
    var m := (n - 1) as real;
    ScaleWithin(q2 - q1, m);
    assert q2 * m - q1 * m == (q2 - q1) * m;
  }

  /** On sorted samples, quantiles never decrease as q grows. */
  lemma QuantileOfSortedMonotone(s: seq<real>, q1: real, q2: real)
    requires s != [] && 0.0 <= q1 <= q2 <= 1.0 && Sorted(s)
    ensures QuantileOfSorted(s, q1) <= QuantileOfSorted(s, q2)
  {
    var n := |s|;
    var p1 := Rank(n, q1);
    var p2 := Rank(n, q2);
    RankMonotone(n, q1, q2);
    QuantileBetween(s, q1);
    QuantileBetween(s, q2);
    if p1.0 == p2.0 {
      if p1.0 + 1 < n {
        var gap := s[p1.0 + 1] - s[p1.0];
        assert 0.0 <= gap;
        ScaleWithin(p2.1 - p1.1, gap);
        assert p2.1 * gap - p1.1 * gap == (p2.1 - p1.1) * gap;
      }
    } else {
      assert s[p1.0 + 1] <= s[p2.0];
    }
  }

  /** Quantiles never decrease as q grows; in particular p95 ≤ p99. */
  lemma QuantileMonotone(xs: seq<real>, q1: real, q2: real)
    requires xs != [] && 0.0 <= q1 <= q2 <= 1.0
    ensures Quantile(xs, q1) <= Quantile(xs, q2)
  {
    SortSorts(xs);
    QuantileOfSortedMonotone(Sort(xs), q1, q2);
  }

  /** Samples already in ascending order are their own sorted order. */
  lemma {:induction false} SortOfSorted(xs: seq<real>)
    requires Sorted(xs)
    ensures Sort(xs) == xs
  {
    if xs != [] {
      SortOfSorted(xs[1..]);
      assert xs == [xs[0]] + xs[1..];
    }
  }

  /** `np.median`: the middle sample, or the mean of the two middle samples. */
  function Median(xs: seq<real>): real
    requires xs != []
  {
    var s := Sort(xs);
    var n := |s|;
    if n % 2 == 1 then s[n / 2] else (s[n / 2 - 1] + s[n / 2]) / 2.0
  }

  /** The median is the 0.5-quantile, so it lies between the extremes as well. */
  lemma MedianIsHalfQuantile(xs: seq<real>)
    requires xs != []
    ensures Median(xs) == Quantile(xs, 0.5)
  {
    MiddleOfSorted(Sort(xs));
  }

  /** The middle of n sorted samples is their 0.5-quantile: rank (n−1)/2. */
  lemma MiddleOfSorted(s: seq<real>)
    requires s != []
    ensures QuantileOfSorted(s, 0.5) == if |s| % 2 == 1 then s[|s| / 2] else (s[|s| / 2 - 1] + s[|s| / 2]) / 2.0
  {
    var n := |s|;
    var rank := 0.5 * (n - 1) as real;
    if n % 2 == 1 {
      assert rank == (n / 2) as real;
      assert rank.Floor == n / 2;
    } else {
      assert rank == (n / 2 - 1) as real + 0.5;
      assert rank.Floor == n / 2 - 1;
    }
  }

  /** The five latencies of the worked example: 10, 20, 30, 40 and 50. */
  function FiveLatencies(): (xs: seq<real>)
    ensures |xs| == 5 && Sorted(xs)
  {
    [10.0, 20.0, 30.0, 40.0, 50.0]
  }

  /** Their mean is 30, their smallest 10 and their largest 50. */
  lemma FiveSamplesMean()
    ensures Mean(FiveLatencies()) == 30.0
    ensures Smallest(FiveLatencies()) == 10.0 && Largest(FiveLatencies()) == 50.0
  {
    var xs := FiveLatencies();
    assert xs[1..] == [20.0, 30.0, 40.0, 50.0];
    assert xs[1..][1..] == [30.0, 40.0, 50.0];
    assert xs[1..][1..][1..] == [40.0, 50.0];
    assert xs[1..][1..][1..][1..] == [50.0];
    assert Sum(xs) == 150.0;
    SortOfSorted(xs);
    SortedEnds(xs);
  }

  /**
   * Their median is 30 and, by linear interpolation, p95 = 40 + 0.8·(50 − 40)
   * = 48 (rank 0.95·4 = 3.8) and p99 = 49.6 (rank 3.96).
   */
  lemma FiveSamplesQuantiles()
    ensures Median(FiveLatencies()) == 30.0
    ensures Quantile(FiveLatencies(), 0.95) == 48.0 && Quantile(FiveLatencies(), 0.99) == 49.6
  {
    var xs := FiveLatencies();
    SortOfSorted(xs);
    assert Rank(5, 0.95) == (3, 0.8) by {
      assert 0.95 * 4.0 == 3.8;
      assert (3.8).Floor == 3;
    }
    assert Rank(5, 0.99) == (3, 0.96) by {
      assert 0.99 * 4.0 == 3.96;
      assert (3.96).Floor == 3;
    }
  }
}

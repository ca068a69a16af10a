/** Ranks of sorted score lists: the counting argument behind medians and quantile thresholds. */
module OrderStatistics {
  import opened ReplayEvents
  import opened Sorting

  predicate RealLe(a: real, b: real) { a <= b }

  /** A list of scores in increasing order. */
  function Ascending(xs: seq<real>): (r: seq<real>)
    ensures |r| == |xs|
  {
    Sorted(xs, RealLe)
  }

  lemma AscendingProperties(xs: seq<real>)
    ensures multiset(Ascending(xs)) == multiset(xs)
    ensures Ordered(Ascending(xs), RealLe)
  {
    SortedPermutes(xs, RealLe);
    SortedOrdered(xs, RealLe);
  }

  /** In an ordered list, element k is at most t exactly when more than k elements are. */
  lemma RankAtMost(a: seq<real>, k: nat, t: real)
    requires Ordered(a, RealLe) && k < |a|
    ensures a[k] <= t <==> CountIf(a, x => x <= t) >= k + 1
  {
    var p := (x: real) => x <= t;
    assert a == a[..k + 1] + a[k + 1..] && a == a[..k] + a[k..];
    if a[k] <= t {
      forall x | x in a[..k + 1] ensures p(x) {
        var i :| 0 <= i <= k && a[i] == x;
        assert i == k || RealLe(a[i], a[k]);
      }
      CountIfUniform(a[..k + 1], p, true);
      CountIfAppend(a[..k + 1], a[k + 1..], p);
    } else {
      forall x | x in a[k..] ensures !p(x) { var i :| k <= i < |a| && a[i] == x; assert i == k || RealLe(a[k], a[i]); }
      CountIfUniform(a[k..], p, false);
      CountIfAppend(a[..k], a[k..], p);
    }
  }

  /** Two lists of equal length that differ by at most `eps` position by position. */
  ghost predicate Near(a: seq<real>, b: seq<real>, eps: real) {
    |a| == |b| && forall i :: 0 <= i < |a| ==> -eps <= a[i] - b[i] <= eps
  }

  lemma {:induction false} NearCounts(a: seq<real>, b: seq<real>, eps: real, t: real)
    requires Near(a, b, eps)
    ensures CountIf(b, x => x <= t) <= CountIf(a, x => x <= t + eps)
  {
    if a != [] { NearCounts(a[1..], b[1..], eps, t); }
  }

  /** Each order statistic moves by at most as much as the data: sorting is a contraction. */
  lemma OrderStatisticLipschitz(a: seq<real>, b: seq<real>, eps: real, k: nat)
    requires Near(a, b, eps) && k < |a|
    ensures -eps <= Ascending(a)[k] - Ascending(b)[k] <= eps
  {
    OrderStatisticAtMost(a, b, eps, k);
    OrderStatisticAtMost(b, a, eps, k);
  }

  lemma OrderStatisticAtMost(a: seq<real>, b: seq<real>, eps: real, k: nat)
    requires Near(a, b, eps) && k < |a|
    ensures Ascending(a)[k] <= Ascending(b)[k] + eps
  {
    AscendingProperties(a);
    AscendingProperties(b);
    var t := Ascending(b)[k];
    RankAtMost(Ascending(b), k, t);
    CountIfPermutation(Ascending(b), b, x => x <= t);
    NearCounts(a, b, eps, t);
    CountIfPermutation(Ascending(a), a, x => x <= t + eps);
    RankAtMost(Ascending(a), k, t + eps);
  }

  /** `numpy.median`: the middle element, or the mean of the two middle elements. */
  function Median(xs: seq<real>): real
    requires xs != []
  {
    var s := Ascending(xs);
    if |s| % 2 == 1 then s[|s| / 2] else (s[|s| / 2 - 1] + s[|s| / 2]) / 2.0
  }

  function Under(t: real): real -> bool { (x: real) => x < t }

  function Over(t: real): real -> bool { (x: real) => x > t }

  lemma FewUnder(s: seq<real>, k: nat, t: real)
    requires k <= |s| && forall i :: k <= i < |s| ==> s[i] >= t
    ensures CountIf(s, Under(t)) <= k
  {
    assert s == s[..k] + s[k..];
    CountIfAppend(s[..k], s[k..], Under(t));
    CountIfUniform(s[k..], Under(t), false);
  }

  lemma FewOver(s: seq<real>, k: nat, t: real)
    requires k <= |s| && forall i :: 0 <= i < k ==> s[i] <= t
    ensures CountIf(s, Over(t)) <= |s| - k
  {
    assert s == s[..k] + s[k..];
    CountIfAppend(s[..k], s[k..], Over(t));
    CountIfUniform(s[..k], Over(t), false);
  }

  lemma RankOrder(s: seq<real>, i: nat, j: nat)
    requires Ordered(s, RealLe) && i <= j < |s|
    ensures s[i] <= s[j]
  {
    assert i == j || RealLe(s[i], s[j]);
  }

  /** The two elements in the middle of an ordered list of even length. */
  ghost predicate MiddlePair(xs: seq<real>, a: real, b: real) {
    && a in xs && b in xs && a <= b
    && 2 * CountIf(xs, Under(b)) <= |xs| && 2 * CountIf(xs, Over(a)) <= |xs|
  }

  /** At most half of the values are below the median and at most half above it; it is one of the values when their
      number is odd, and otherwise half-way between two values with at most half of all below the upper one and at
      most half above the lower one. */
  lemma MedianSplits(xs: seq<real>)
    requires xs != []
    ensures 2 * CountIf(xs, Under(Median(xs))) <= |xs| && 2 * CountIf(xs, Over(Median(xs))) <= |xs|
    ensures |xs| % 2 == 1 ==> Median(xs) in xs
    ensures |xs| % 2 == 0 ==> exists a, b :: MiddlePair(xs, a, b) && Median(xs) == (a + b) / 2.0
  {
    AscendingProperties(xs);
    MedianOfOrdered(xs, Ascending(xs), Median(xs));
  }

  lemma MedianOfOrdered(xs: seq<real>, s: seq<real>, m: real)
    requires multiset(s) == multiset(xs) && Ordered(s, RealLe) && |s| == |xs| > 0
    requires m == if |s| % 2 == 1 then s[|s| / 2] else (s[|s| / 2 - 1] + s[|s| / 2]) / 2.0
    ensures 2 * CountIf(xs, Under(m)) <= |xs| && 2 * CountIf(xs, Over(m)) <= |xs|
    ensures |xs| % 2 == 1 ==> m in xs
    ensures |xs| % 2 == 0 ==> exists a, b :: MiddlePair(xs, a, b) && m == (a + b) / 2.0
  {
    var h := |xs| / 2;
    if |xs| % 2 == 1 { OddMedian(xs, s, h); } else { EvenMedian(xs, s, h); }
  }

  lemma MemberOfSorted(xs: seq<real>, s: seq<real>, i: nat)
    requires multiset(s) == multiset(xs) && i < |s|
    ensures s[i] in xs
  {
    assert s[i] in multiset(s);
  }

  lemma OddMedian(xs: seq<real>, s: seq<real>, h: nat)
    requires multiset(s) == multiset(xs) && Ordered(s, RealLe) && |s| == |xs| == 2 * h + 1
    ensures s[h] in xs && 2 * CountIf(xs, Under(s[h])) <= |xs| && 2 * CountIf(xs, Over(s[h])) <= |xs|
  {
    MemberOfSorted(xs, s, h);
    SplitAt(xs, s, h, h + 1, s[h]);
  }

  lemma EvenMedian(xs: seq<real>, s: seq<real>, h: nat)
    requires multiset(s) == multiset(xs) && Ordered(s, RealLe) && |s| == |xs| == 2 * h > 0
    ensures var m := (s[h - 1] + s[h]) / 2.0; 2 * CountIf(xs, Under(m)) <= |xs| && 2 * CountIf(xs, Over(m)) <= |xs|
    ensures MiddlePair(xs, s[h - 1], s[h])
  {
    MemberOfSorted(xs, s, h - 1);
    MemberOfSorted(xs, s, h);
    RankOrder(s, h - 1, h);
    SplitAt(xs, s, h, h, (s[h - 1] + s[h]) / 2.0);
    CountsBetween(xs, s, h, s[h - 1], s[h]);
  }

  lemma SplitAt(xs: seq<real>, s: seq<real>, low: nat, high: nat, m: real)
    requires multiset(s) == multiset(xs) && Ordered(s, RealLe) && 0 < high <= |s| && low < |s|
    requires s[high - 1] <= m <= s[low] && 2 * low <= |xs| && 2 * (|xs| - high) <= |xs|
    ensures 2 * CountIf(xs, Under(m)) <= |xs| && 2 * CountIf(xs, Over(m)) <= |xs|
  {
    assert |s| == |xs| by { assert |multiset(s)| == |s| && |multiset(xs)| == |xs|; }
    forall i | low <= i < |s| ensures s[i] >= m { RankOrder(s, low, i); }
    forall i | 0 <= i < high ensures s[i] <= m { RankOrder(s, i, high - 1); }
    FewUnder(s, low, m);
    FewOver(s, high, m);
    CountIfPermutation(s, xs, Under(m));
    CountIfPermutation(s, xs, Over(m));
  }

  lemma CountsBetween(xs: seq<real>, s: seq<real>, h: nat, a: real, b: real)
    requires multiset(s) == multiset(xs) && Ordered(s, RealLe) && 0 < h < |s| == |xs| == 2 * h
    requires a == s[h - 1] && b == s[h]
    ensures 2 * CountIf(xs, Under(b)) <= |xs| && 2 * CountIf(xs, Over(a)) <= |xs|
  {
    forall i | h <= i < |s| ensures s[i] >= b { RankOrder(s, h, i); }
    forall i | 0 <= i < h ensures s[i] <= a { RankOrder(s, i, h - 1); }
    FewUnder(s, h, b);
    FewOver(s, h, a);
    CountIfPermutation(s, xs, Under(b));
    CountIfPermutation(s, xs, Over(a));
  }

  lemma MedianLipschitz(a: seq<real>, b: seq<real>, eps: real)
    requires Near(a, b, eps) && a != []
    ensures -eps <= Median(a) - Median(b) <= eps
  {
    OrderStatisticLipschitz(a, b, eps, |a| / 2);
    if |a| % 2 == 0 { OrderStatisticLipschitz(a, b, eps, |a| / 2 - 1); }
  }
}

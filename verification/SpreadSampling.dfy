/** Evenly spaced selection from a time-ordered class (`spread_select`,
    scripts/build_replay_holdout_split.py). Python's `round` rounds halves to the even integer; the quotient
    `i * (n - 1) / (target - 1)` is kept exact. */
module SpreadSampling {
  import opened ReplayEvents
  import opened Sorting
  import opened PlanRows
  import opened Arithmetic

  function RoundHalfEven(p: nat, q: nat): nat
    requires q > 0
  {
    var k, rest := p / q, p % q;
    if 2 * rest < q || (2 * rest == q && k % 2 == 0) then k else k + 1
  }

  /** Rounding never moves by more than one half. */
  lemma RoundingError(p: nat, q: nat)
    requires q > 0
    ensures 2 * p - q <= 2 * (q * RoundHalfEven(p, q)) <= 2 * p + q
  {
    var k, rest := p / q, p % q;
    assert p == q * k + rest;
    assert q * (k + 1) == q * k + q;
  }

  /** A half is rounded to the even neighbour. */
  lemma HalfRoundsToEven(p: nat, q: nat)
    requires q > 0 && 2 * (p % q) == q
    ensures RoundHalfEven(p, q) % 2 == 0
  {
  }

  /** k is the integer nearest to p/q, the even one of two. */
  ghost predicate Nearest(k: int, p: nat, q: nat) {
    2 * p - q <= 2 * (q * k) <= 2 * p + q && (2 * (q * k) == 2 * p - q || 2 * (q * k) == 2 * p + q ==> k % 2 == 0)
  }

  lemma RoundsToNearest(p: nat, q: nat)
    requires q > 0
    ensures Nearest(RoundHalfEven(p, q), p, q)
  {
    var k, rest := p / q, p % q;
    assert p == q * k + rest;
    assert q * (k + 1) == q * k + q;
    RoundingError(p, q);
    if 2 * rest == q { HalfRoundsToEven(p, q); }
  }

  /** Index of the i-th of `target` picks among n rows. */
  function PickIndex(i: nat, n: nat, target: nat): nat
    requires target >= 2 && n >= 1
  {
    RoundHalfEven(i * (n - 1), target - 1)
  }

  /** What rounding two consecutive multiples of a fraction a/b can do to their difference. */
  lemma RoundedGap(a: nat, b: nat, x: nat, r: nat, r': nat)
    requires b > 0
    requires 2 * x - b <= 2 * (b * r) <= 2 * x + b
    requires 2 * (x + a) - b <= 2 * (b * r') <= 2 * (x + a) + b
    ensures a % b != 0 ==> a / b <= r' - r <= a / b + 1
  {
    var q, f := a / b, a % b;
    assert a == b * q + f && 0 <= f < b;
    assert b * (r' - r) == b * r' - b * r;
    if f != 0 {
      assert 2 * a - 2 * b <= 2 * (b * (r' - r)) <= 2 * a + 2 * b;
      CancelLess(b, q - 1, r' - r);
      CancelLess(b, r' - r, q + 2);
    }
  }

  lemma ExactMultiple(b: nat, q: nat, i: nat)
    requires b > 0
    ensures RoundHalfEven(i * (b * q), b) == i * q
  {
    assert i * (b * q) == b * (i * q) + 0;
    Quotient(b, i * q);
  }

  lemma Quotient(b: nat, k: nat)
    requires b > 0
    ensures (b * k) / b == k && (b * k) % b == 0
  {
    var x := b * k;
    var q, rest := x / b, x % b;
    assert x == b * q + rest && 0 <= rest < b;
    assert b * (q + 1) == b * q + b && b * (k + 1) == b * k + b;
    CancelLess(b, q, k + 1);
    CancelLess(b, k, q + 1);
  }

  /** Every gap between consecutive picks is the floor or the ceiling of (n-1)/(target-1), so at least 1. */
  lemma PickGap(i: nat, n: nat, target: nat)
    requires 2 <= target < n
    ensures var gap := PickIndex(i + 1, n, target) - PickIndex(i, n, target);
      var a, b := n - 1, target - 1;
      && 1 <= a / b
      && (gap == a / b || (a % b != 0 && gap == a / b + 1))
  {
    var a, b := n - 1, target - 1;
    assert (i + 1) * a == i * a + a;
    DivideAtLeastOne(a, b);
    if a % b == 0 {
      assert a == b * (a / b);
      ExactMultiple(b, a / b, i);
      ExactMultiple(b, a / b, i + 1);
      assert (i + 1) * (a / b) == i * (a / b) + a / b;
    } else {
      RoundingError(i * a, b);
      RoundingError(i * a + a, b);
      RoundedGap(a, b, i * a, PickIndex(i, n, target), PickIndex(i + 1, n, target));
    }
  }

  lemma DivideAtLeastOne(a: nat, b: nat)
    requires 0 < b < a
    ensures 1 <= a / b
  {
  }

  /** The picks start at the first row and end at the last. */
  lemma PickEnds(n: nat, target: nat)
    requires 2 <= target < n
    ensures PickIndex(0, n, target) == 0 && PickIndex(target - 1, n, target) == n - 1
  {
    assert 0 * (n - 1) == 0;
    assert (target - 1) * (n - 1) == 1 * ((target - 1) * (n - 1));
    ExactMultiple(target - 1, n - 1, 1);
  }

  lemma {:induction false} PicksIncrease(i: nat, j: nat, n: nat, target: nat)
    requires 2 <= target < n && i < j
    ensures PickIndex(i, n, target) < PickIndex(j, n, target)
    decreases j
  {
    PickGap(j - 1, n, target);
    if i < j - 1 { PicksIncrease(i, j - 1, n, target); }
  }

  lemma PickInRange(i: nat, n: nat, target: nat)
    requires 2 <= target < n && i < target
    ensures PickIndex(i, n, target) < n
  {
    PickEnds(n, target);
    if i < target - 1 { PicksIncrease(i, target - 1, n, target); }
  }

  predicate IntLe(a: int, b: int) { a <= b }

  function RoundedPicks(n: nat, target: nat): (r: seq<int>)
    requires 2 <= target < n
    ensures |r| == target
  {
    seq(target, i requires 0 <= i < target => PickIndex(i, n, target))
  }

  lemma RoundedPicksIncrease(n: nat, target: nat)
    requires 2 <= target < n
    ensures forall i :: 0 <= i < target ==> 0 <= RoundedPicks(n, target)[i] < n
    ensures forall i, j :: 0 <= i < j < target ==> RoundedPicks(n, target)[i] < RoundedPicks(n, target)[j]
    ensures RoundedPicks(n, target)[0] == 0 && RoundedPicks(n, target)[target - 1] == n - 1
  {
    forall i, j | 0 <= i < j < target ensures RoundedPicks(n, target)[i] < RoundedPicks(n, target)[j] {
      PicksIncrease(i, j, n, target);
    }
    forall i | 0 <= i < target ensures 0 <= RoundedPicks(n, target)[i] < n { PickInRange(i, n, target); }
    PickEnds(n, target);
  }

  /** `sorted(round(i * (n - 1) / (target - 1)) for i in range(target))` */
  function PickIndexes(n: nat, target: nat): (r: seq<int>)
    requires 2 <= target < n
    ensures |r| == target
  {
    Sorted(RoundedPicks(n, target), IntLe)
  }

  /** Sorting changes nothing: the rounded positions already increase. */
  lemma PickIndexesRounded(n: nat, target: nat)
    requires 2 <= target < n
    ensures PickIndexes(n, target) == RoundedPicks(n, target)
  {
    RoundedPicksIncrease(n, target);
    IncreasingSorted(RoundedPicks(n, target));
  }

  lemma PickIndexesIncrease(n: nat, target: nat)
    requires 2 <= target < n
    ensures forall i :: 0 <= i < target ==> 0 <= PickIndexes(n, target)[i] < n
    ensures forall i, j :: 0 <= i < j < target ==> PickIndexes(n, target)[i] < PickIndexes(n, target)[j]
    ensures PickIndexes(n, target)[0] == 0 && PickIndexes(n, target)[target - 1] == n - 1
  {
    RoundedPicksIncrease(n, target);
    PickIndexesRounded(n, target);
  }

  lemma IncreasingSorted(xs: seq<int>)
    requires forall i, j :: 0 <= i < j < |xs| ==> xs[i] < xs[j]
    ensures Sorted(xs, IntLe) == xs
  {
    SortedFixed(xs, IntLe);
  }

  // ---------------------------------------------------------------------------- selecting rows

  predicate ByTime(a: PlanRow, b: PlanRow) {
    PairLe((a.sourceTimestamp, a.sourceEventId), (b.sourceTimestamp, b.sourceEventId))
  }

  function PickRows(ordered: seq<PlanRow>, indexes: seq<int>): (r: seq<PlanRow>)
    requires forall k :: 0 <= k < |indexes| ==> 0 <= indexes[k] < |ordered|
    ensures |r| == |indexes|
  {
    seq(|indexes|, k requires 0 <= k < |indexes| => ordered[indexes[k]])
  }

  function SpreadSelection(rows: seq<PlanRow>, target: int): seq<PlanRow> {
    var ordered := Sorted(rows, ByTime);
    if target >= |ordered| then ordered
    else if target <= 0 then []
    else if target == 1 then [ordered[|ordered| / 2]]
    else
      PickIndexesIncrease(|ordered|, target);
      PickRows(ordered, PickIndexes(|ordered|, target))
  }

  /** Rows picked at increasing positions form a sub-multiset: no row is taken twice. */
  lemma {:induction false} PickRowsOnce(ordered: seq<PlanRow>, indexes: seq<int>)
    requires forall k :: 0 <= k < |indexes| ==> 0 <= indexes[k] < |ordered|
    requires forall i, j :: 0 <= i < j < |indexes| ==> indexes[i] < indexes[j]
    ensures multiset(PickRows(ordered, indexes)) <= multiset(ordered)
    decreases |indexes|
  {
    if indexes != [] {
      var last := |indexes| - 1;
      var cut := indexes[last];
      PickRowsOnce(ordered[..cut], indexes[..last]);
      assert PickRows(ordered, indexes) == PickRows(ordered[..cut], indexes[..last]) + [ordered[cut]];
      assert ordered == ordered[..cut] + [ordered[cut]] + ordered[cut + 1..];
    }
  }

  /** The selection has min(max(target, 0), n) rows, all from the class and none twice. */
  lemma SpreadSelectionSize(rows: seq<PlanRow>, target: int)
    ensures |SpreadSelection(rows, target)| == if target >= |rows| then |rows| else if target <= 0 then 0 else target
    ensures multiset(SpreadSelection(rows, target)) <= multiset(rows)
  {
    SortedPermutes(rows, ByTime);
    var ordered := Sorted(rows, ByTime);
    if target == 1 < |ordered| {
      assert ordered[|ordered| / 2] in multiset(ordered);
    } else if 2 <= target < |ordered| {
      PickIndexesIncrease(|ordered|, target);
      PickRowsOnce(ordered, PickIndexes(|ordered|, target));
    }
  }

  lemma ByTimeIsOrder()
    ensures TotalPreorder(ByTime)
  {
    PairLeIsOrder();
  }

  lemma PickRowsOrdered(ordered: seq<PlanRow>, indexes: seq<int>)
    requires Ordered(ordered, ByTime)
    requires forall k :: 0 <= k < |indexes| ==> 0 <= indexes[k] < |ordered|
    requires forall i, j :: 0 <= i < j < |indexes| ==> indexes[i] < indexes[j]
    ensures Ordered(PickRows(ordered, indexes), ByTime)
  {
  }

  lemma SortedEnds(rows: seq<PlanRow>, r: PlanRow)
    requires r in rows
    ensures var ordered := Sorted(rows, ByTime); ByTime(ordered[0], r) && ByTime(r, ordered[|ordered| - 1])
  {
    var ordered := Sorted(rows, ByTime);
    ByTimeIsOrder();
    SortedOrdered(rows, ByTime);
    SortedPermutes(rows, ByTime);
    assert r in multiset(ordered);
    var k :| 0 <= k < |ordered| && ordered[k] == r;
    assert ByTime(r, r);
  }

  /** The selection is in time order. */
  lemma SpreadSelectionOrdered(rows: seq<PlanRow>, target: int)
    ensures Ordered(SpreadSelection(rows, target), ByTime)
  {
    ByTimeIsOrder();
    SortedOrdered(rows, ByTime);
    var n := |Sorted(rows, ByTime)|;
    if 2 <= target < n {
      PickIndexesIncrease(n, target);
      PickRowsOrdered(Sorted(rows, ByTime), PickIndexes(n, target));
    }
  }

  lemma SelectionCases(rows: seq<PlanRow>, target: int)
    requires 2 <= target
    ensures target >= |rows| ==> SpreadSelection(rows, target) == Sorted(rows, ByTime)
    ensures target < |rows| ==>
      && (forall k :: 0 <= k < target ==> 0 <= PickIndexes(|rows|, target)[k] < |rows|)
      && SpreadSelection(rows, target) == PickRows(Sorted(rows, ByTime), PickIndexes(|rows|, target))
  {
    if target < |rows| { PickIndexesIncrease(|rows|, target); }
  }

  lemma PickedEnds(ordered: seq<PlanRow>, target: int)
    requires 2 <= target < |ordered|
    ensures forall k :: 0 <= k < target ==> 0 <= PickIndexes(|ordered|, target)[k] < |ordered|
    ensures var picked := PickRows(ordered, PickIndexes(|ordered|, target));
      picked[0] == ordered[0] && picked[|picked| - 1] == ordered[|ordered| - 1]
  {
    var indexes := PickIndexes(|ordered|, target);
    PickIndexesIncrease(|ordered|, target);
    assert indexes[0] == 0 && indexes[|indexes| - 1] == |ordered| - 1;
    PickRowsEnds(ordered, indexes);
  }

  lemma SelectionEnds(rows: seq<PlanRow>, target: int)
    requires 2 <= target && rows != []
    ensures var picked, ordered := SpreadSelection(rows, target), Sorted(rows, ByTime);
      picked != [] && picked[0] == ordered[0] && picked[|picked| - 1] == ordered[|ordered| - 1]
  {
    SelectionCases(rows, target);
    if target < |rows| { PickedEnds(Sorted(rows, ByTime), target); }
  }

  lemma PickRowsEnds(ordered: seq<PlanRow>, indexes: seq<int>)
    requires forall k :: 0 <= k < |indexes| ==> 0 <= indexes[k] < |ordered|
    requires indexes != [] && indexes[0] == 0 && indexes[|indexes| - 1] == |ordered| - 1
    ensures var picked := PickRows(ordered, indexes);
      picked[0] == ordered[0] && picked[|picked| - 1] == ordered[|ordered| - 1]
  {
  }

  /** From two picks on, the selection keeps the earliest and the latest row of the class. */
  lemma SpreadSelectionSpansTime(rows: seq<PlanRow>, target: int, r: PlanRow)
    requires 2 <= target && r in rows
    ensures SpreadSelection(rows, target) != []
    ensures ByTime(SpreadSelection(rows, target)[0], r)
    ensures ByTime(r, SpreadSelection(rows, target)[|SpreadSelection(rows, target)| - 1])
  {
    SelectionEnds(rows, target);
    SortedEnds(rows, r);
  }

  /** Position p is nearest to k (n - 1) / (target - 1), a half going to the even position. */
  ghost predicate IsPick(p: int, k: nat, n: nat, target: nat)
    requires n >= 1 && target >= 2
  {
    Nearest(p, k * (n - 1), target - 1)
  }

  lemma PickIsNearest(k: nat, n: nat, target: nat)
    requires n >= 1 && target >= 2
    ensures IsPick(PickIndex(k, n, target), k, n, target)
  {
    RoundsToNearest(k * (n - 1), target - 1);
  }

  lemma PickedRow(ordered: seq<PlanRow>, target: nat, k: nat)
    requires 2 <= target < |ordered| && k < target
    ensures forall i :: 0 <= i < target ==> 0 <= PickIndexes(|ordered|, target)[i] < |ordered|
    ensures var p := PickIndexes(|ordered|, target)[k];
      PickRows(ordered, PickIndexes(|ordered|, target))[k] == ordered[p] && IsPick(p, k, |ordered|, target)
  {
    PickIndexesIncrease(|ordered|, target);
    PickIndexesRounded(|ordered|, target);
    PickIsNearest(k, |ordered|, target);
  }

  /** Pick k is the row at the nearest position of the time order. */
  lemma PicksNearest(rows: seq<PlanRow>, target: nat, k: nat) returns (p: nat)
    requires 2 <= target < |rows| && k < target
    ensures |SpreadSelection(rows, target)| == target && p < |rows|
    ensures SpreadSelection(rows, target)[k] == Sorted(rows, ByTime)[p] && IsPick(p, k, |rows|, target)
  {
    SelectionCases(rows, target);
    PickedRow(Sorted(rows, ByTime), target, k);
    p := PickIndexes(|rows|, target)[k];
  }

  /** Rows that come strictly before, and strictly after, a row in time order. */
  function Earlier(r: PlanRow): PlanRow -> bool { other => !ByTime(r, other) }

  function Later(r: PlanRow): PlanRow -> bool { other => !ByTime(other, r) }

  lemma NotLater(s: seq<PlanRow>, i: nat, k: nat)
    requires Ordered(s, ByTime) && i <= k < |s|
    ensures ByTime(s[i], s[k])
  {
    ByTimeIsOrder();
    assert ByTime(s[k], s[k]);
  }

  lemma FewEarlier(s: seq<PlanRow>, k: nat)
    requires Ordered(s, ByTime) && k < |s|
    ensures CountIf(s, Earlier(s[k])) <= k
  {
    forall x | x in s[k..] ensures !Earlier(s[k])(x) {
      var i :| k <= i < |s| && s[i] == x;
      NotLater(s, k, i);
    }
    assert s == s[..k] + s[k..];
    CountIfAppend(s[..k], s[k..], Earlier(s[k]));
    CountIfUniform(s[k..], Earlier(s[k]), false);
  }

  lemma FewLater(s: seq<PlanRow>, k: nat)
    requires Ordered(s, ByTime) && k < |s|
    ensures CountIf(s, Later(s[k])) <= |s| - 1 - k
  {
    forall x | x in s[..k + 1] ensures !Later(s[k])(x) {
      var i :| 0 <= i <= k && s[i] == x;
      NotLater(s, i, k);
    }
    assert s == s[..k + 1] + s[k + 1..];
    CountIfAppend(s[..k + 1], s[k + 1..], Later(s[k]));
    CountIfUniform(s[..k + 1], Later(s[k]), false);
  }

  lemma MiddleOf(rows: seq<PlanRow>, ordered: seq<PlanRow>, r: PlanRow)
    requires multiset(ordered) == multiset(rows) && Ordered(ordered, ByTime) && |ordered| == |rows| > 0
    requires r == ordered[|ordered| / 2]
    ensures r in rows && 2 * CountIf(rows, Earlier(r)) <= |rows| && 2 * CountIf(rows, Later(r)) < |rows|
  {
    var k := |ordered| / 2;
    FewEarlier(ordered, k);
    FewLater(ordered, k);
    CountIfPermutation(ordered, rows, Earlier(r));
    CountIfPermutation(ordered, rows, Later(r));
    assert r in multiset(ordered);
  }

  lemma SingleSelection(rows: seq<PlanRow>)
    requires rows != []
    ensures SpreadSelection(rows, 1) == [Sorted(rows, ByTime)[|rows| / 2]]
  {
  }

  lemma SortedByTime(rows: seq<PlanRow>)
    ensures multiset(Sorted(rows, ByTime)) == multiset(rows) && Ordered(Sorted(rows, ByTime), ByTime)
  {
    ByTimeIsOrder();
    SortedOrdered(rows, ByTime);
    SortedPermutes(rows, ByTime);
  }

  /** A single pick is a median row: at most half of the class is earlier, and fewer than half of it later. */
  lemma SinglePickIsMiddle(rows: seq<PlanRow>)
    requires rows != []
    ensures |SpreadSelection(rows, 1)| == 1
    ensures var picked := SpreadSelection(rows, 1)[0];
      picked in rows && 2 * CountIf(rows, Earlier(picked)) <= |rows| && 2 * CountIf(rows, Later(picked)) < |rows|
  {
    SingleSelection(rows);
    SortedByTime(rows);
    MiddleOf(rows, Sorted(rows, ByTime), Sorted(rows, ByTime)[|rows| / 2]);
  }

  method SpreadSelect(rows: seq<PlanRow>, target: int) returns (picked: seq<PlanRow>)
    ensures picked == SpreadSelection(rows, target)
  {
    var ordered := Sorted(rows, ByTime);
    if target >= |ordered| { return ordered; }
    if target <= 0 { return []; }
    if target == 1 { return [ordered[|ordered| / 2]]; }
    PickIndexesIncrease(|ordered|, target);
    var indexes := PickIndexes(|ordered|, target);
    picked := [];
    for k := 0 to |indexes|
      invariant picked == PickRows(ordered, indexes)[..k]
    {
      picked := picked + [ordered[indexes[k]]];
    }
  }
}

/** Largest-remainder allocation of holdout pieces to source classes (`good_targets` in
    scripts/build_replay_holdout_split.py, `target_good_counts` in scripts/build_validation_gate_v2.py).

Quotas are exact: the quota of a class is the fraction `total * count / observed`, kept as its floor and
the numerator of its fractional part over `observed`. */
module Apportionment {
  import opened ReplayEvents
  import opened Sorting
  import opened PlanRows
  import opened Arithmetic

  function Sum(xs: seq<int>): int {
    if xs == [] then 0 else xs[0] + Sum(xs[1..])
  }

  lemma {:induction false} SumAdd(xs: seq<int>, ys: seq<int>, zs: seq<int>)
    requires |xs| == |ys| == |zs|
    requires forall i :: 0 <= i < |xs| ==> zs[i] == xs[i] + ys[i]
    ensures Sum(zs) == Sum(xs) + Sum(ys)
  {
    if xs != [] { SumAdd(xs[1..], ys[1..], zs[1..]); }
  }

  lemma {:induction false} SumScale(xs: seq<int>, k: int, ys: seq<int>)
    requires |xs| == |ys| && forall i :: 0 <= i < |xs| ==> ys[i] == k * xs[i]
    ensures Sum(ys) == k * Sum(xs)
  {
    if xs != [] { SumScale(xs[1..], k, ys[1..]); }
  }

  function Scaled(k: int, xs: seq<int>): (r: seq<int>)
    ensures |r| == |xs|
  {
    seq(|xs|, i requires 0 <= i < |xs| => k * xs[i])
  }

  lemma SumScaled(k: int, xs: seq<int>)
    ensures Sum(Scaled(k, xs)) == k * Sum(xs)
  {
    SumScale(xs, k, Scaled(k, xs));
  }

  lemma {:induction false} SumMonotone(xs: seq<int>, ys: seq<int>)
    requires |xs| == |ys| && forall i :: 0 <= i < |xs| ==> xs[i] <= ys[i]
    ensures Sum(xs) <= Sum(ys)
  {
    if xs != [] { SumMonotone(xs[1..], ys[1..]); }
  }

  lemma {:induction false} SumSnoc(xs: seq<int>, x: int)
    ensures Sum(xs + [x]) == Sum(xs) + x
  {
    if xs != [] {
      SumSnoc(xs[1..], x);
      assert (xs + [x])[1..] == xs[1..] + [x];
    }
  }

  /** The sum of an indicator vector is the size of the set it indicates. */
  lemma {:induction false} SumIndicator(n: nat, w: set<int>, xs: seq<int>)
    requires |xs| == n && forall i :: i in w ==> 0 <= i < n
    requires forall i :: 0 <= i < n ==> xs[i] == if i in w then 1 else 0
    ensures Sum(xs) == |w|
  {
    if n == 0 {
      assert forall i :: i !in w;
    } else {
      SumSnoc(xs[..n - 1], xs[n - 1]);
      assert xs == xs[..n - 1] + [xs[n - 1]];
      SumIndicator(n - 1, w - {n - 1}, xs[..n - 1]);
    }
  }

  // ---------------------------------------------------------------------------- the allocation

  /** The quota `total * count / observed`: its floor and the numerator of its fractional part. */
  datatype Quota = Quota(floor: int, fraction: int)

  function QuotaOf(total: nat, count: nat, observed: nat): Quota
    requires observed > 0
  {
    Quota(total * count / observed, total * count % observed)
  }

  function Quotas(counts: seq<nat>, total: nat): (r: seq<Quota>)
    requires Sum(counts) > 0
  {
    seq(|counts|, i requires 0 <= i < |counts| => QuotaOf(total, counts[i], Sum(counts)))
  }

  function Floors(quotas: seq<Quota>): seq<int> {
    seq(|quotas|, i requires 0 <= i < |quotas| => quotas[i].floor)
  }

  function Fractions(quotas: seq<Quota>): seq<int> {
    seq(|quotas|, i requires 0 <= i < |quotas| => quotas[i].fraction)
  }

  function Remainder(quotas: seq<Quota>, total: nat): int {
    total - Sum(Floors(quotas))
  }

  /** `sorted(raw, key=fraction, reverse=True)`: larger fractions first, ties in first-seen order. */
  function Ranked(quotas: seq<Quota>): seq<int> {
    Sorted(Indexes(|quotas|), ByFraction(quotas))
  }

  function Indexes(n: nat): (r: seq<int>)
    ensures |r| == n && forall i :: 0 <= i < n ==> r[i] == i
  {
    if n == 0 then [] else Indexes(n - 1) + [n - 1]
  }

  function ByFraction(quotas: seq<Quota>): (int, int) -> bool {
    (i: int, j: int) => FractionAt(quotas, i) >= FractionAt(quotas, j)
  }

  function FractionAt(quotas: seq<Quota>, i: int): int {
    if 0 <= i < |quotas| then quotas[i].fraction else 0
  }

  /** `xs[:n]` in Python. */
  function Head<T>(xs: seq<T>, n: int): seq<T> {
    if n >= |xs| then xs else if n >= 0 then xs[..n] else if -n >= |xs| then [] else xs[..|xs| + n]
  }

  function Winners(quotas: seq<Quota>, total: nat): seq<int> {
    Head(Ranked(quotas), Remainder(quotas, total))
  }

  function Seats(n: nat, winners: seq<int>): (r: seq<int>)
    ensures |r| == n
  {
    seq(n, i requires 0 <= i < n => if i in winners then 1 else 0)
  }

  function Allocate(quotas: seq<Quota>, total: nat): (r: seq<int>)
    ensures |r| == |quotas|
  {
    var seats := Seats(|quotas|, Winners(quotas, total));
    seq(|quotas|, i requires 0 <= i < |quotas| => quotas[i].floor + seats[i])
  }

  /** Targets of the classes with these positive counts; an empty `Counter` gets no targets. */
  function Targets(counts: seq<nat>, total: nat): (r: seq<int>)
    requires counts == [] || Sum(counts) > 0
  {
    if counts == [] then [] else Allocate(Quotas(counts, total), total)
  }

  /** A `Counter` of one or more classes: every count is positive. */
  ghost predicate Counts(counts: seq<nat>)
    ensures Counts(counts) ==> Sum(counts) > 0
  {
    if counts != [] && forall i :: 0 <= i < |counts| ==> counts[i] > 0 then PositiveSum(counts); true else false
  }

  lemma {:induction false} PositiveSum(counts: seq<nat>)
    requires counts != [] && forall i :: 0 <= i < |counts| ==> counts[i] > 0
    ensures Sum(counts) > 0
  {
    if |counts| > 1 { PositiveSum(counts[1..]); }
  }

  // ---------------------------------------------------------------------------- its properties

  /** What floor division by `observed` makes of the quotas of `counts`. */
  ghost predicate Exact(quotas: seq<Quota>, counts: seq<nat>, total: nat, observed: int) {
    && |quotas| == |counts|
    && forall i :: 0 <= i < |counts| ==>
      && 0 <= quotas[i].fraction < observed
      && 0 <= quotas[i].floor
      && observed * quotas[i].floor + quotas[i].fraction == total * counts[i]
  }

  lemma QuotaExact(total: nat, count: nat, observed: nat)
    requires observed > 0
    ensures var q := QuotaOf(total, count, observed);
      0 <= q.fraction < observed && 0 <= q.floor && observed * q.floor + q.fraction == total * count
  {
    DivMod(total * count, observed);
  }

  lemma DivMod(x: nat, y: nat)
    requires y > 0
    ensures 0 <= x % y < y && 0 <= x / y && y * (x / y) + x % y == x
  {
  }

  lemma QuotasExact(counts: seq<nat>, total: nat)
    requires Sum(counts) > 0
    ensures Exact(Quotas(counts, total), counts, total, Sum(counts))
  {
    forall i | 0 <= i < |counts|
      ensures var q := Quotas(counts, total)[i];
        0 <= q.fraction < Sum(counts) && 0 <= q.floor && Sum(counts) * q.floor + q.fraction == total * counts[i]
    {
      QuotaExact(total, counts[i], Sum(counts));
    }
  }

  /** The fractional parts add up to exactly the seats that flooring left over. */
  lemma FractionsFillRemainder(quotas: seq<Quota>, counts: seq<nat>, total: nat)
    requires Counts(counts) && Exact(quotas, counts, total, Sum(counts))
    ensures Sum(Fractions(quotas)) == Sum(counts) * Remainder(quotas, total)
    ensures 0 <= Remainder(quotas, total) < |counts|
  {
    var n, observed := |counts|, Sum(counts);
    var floors, fractions := Floors(quotas), Fractions(quotas);
    var scaledFloors := seq(n, i requires 0 <= i < n => observed * floors[i]);
    var scaledQuotas := seq(n, i requires 0 <= i < n => total * counts[i]);
    SumAdd(scaledFloors, fractions, scaledQuotas);
    SumScale(floors, observed, scaledFloors);
    SumScale(counts, total, scaledQuotas);
    FractionalSumBounds(fractions, observed);
    RemainderBounds(observed, total, Sum(floors), Sum(fractions), n);
  }

  lemma RemainderBounds(observed: int, total: int, floors: int, fractions: int, n: int)
    requires observed > 0 && observed * floors + fractions == total * observed && 0 <= fractions < observed * n
    ensures fractions == observed * (total - floors) && 0 <= total - floors < n
  {
    assert observed * (total - floors) == observed * total - observed * floors;
    CancelLess(observed, -1, total - floors);
    CancelLess(observed, total - floors, n);
  }

  lemma {:induction false} FractionalSumBounds(fractions: seq<int>, observed: int)
    requires fractions != [] && forall i :: 0 <= i < |fractions| ==> 0 <= fractions[i] < observed
    ensures 0 <= Sum(fractions) < observed * |fractions|
  {
    if |fractions| > 1 {
      FractionalSumBounds(fractions[1..], observed);
      assert observed * |fractions| == observed * |fractions[1..]| + observed;
    }
  }

  /** The ranking lists every class once, by falling fractional part. */
  lemma RankedProperties(quotas: seq<Quota>)
    ensures |Ranked(quotas)| == |quotas| && Distinct(Ranked(quotas))
    ensures forall i :: i in Ranked(quotas) <==> 0 <= i < |quotas|
    ensures forall j, k :: 0 <= j < k < |quotas| ==>
      FractionAt(quotas, Ranked(quotas)[j]) >= FractionAt(quotas, Ranked(quotas)[k])
  {
    var indexes, ranked := Indexes(|quotas|), Ranked(quotas);
    SortedPermutes(indexes, ByFraction(quotas));
    SortedOrdered(indexes, ByFraction(quotas));
    PermutationDistinct(indexes, ranked);
    SameMembers(indexes, ranked);
    forall i ensures i in ranked <==> 0 <= i < |quotas| {
      if 0 <= i < |quotas| { assert indexes[i] == i; }
    }
    forall j, k | 0 <= j < k < |quotas| ensures FractionAt(quotas, ranked[j]) >= FractionAt(quotas, ranked[k]) {
      assert ByFraction(quotas)(ranked[j], ranked[k]);
    }
  }

  lemma SameMembers(xs: seq<int>, ys: seq<int>)
    requires multiset(xs) == multiset(ys)
    ensures forall x :: x in xs <==> x in ys
  {
    forall x ensures x in xs <==> x in ys { assert x in multiset(xs) <==> x in multiset(ys); }
  }

  lemma {:induction false} DistinctSize(xs: seq<int>)
    requires Distinct(xs)
    ensures |set i | i in xs| == |xs|
  {
    if xs == [] {
      assert (set i | i in xs) == {};
    } else {
      DistinctSize(xs[1..]);
      HeadNotInTail(xs);
      assert (set i | i in xs) == {xs[0]} + (set i | i in xs[1..]);
    }
  }

  /** The winners are `remainder` different classes, and no other class has a larger fractional part. */
  lemma WinnersProperties(quotas: seq<Quota>, total: nat)
    requires 0 <= Remainder(quotas, total) <= |quotas|
    ensures |set i | i in Winners(quotas, total)| == Remainder(quotas, total)
    ensures forall i :: i in Winners(quotas, total) ==> 0 <= i < |quotas|
    ensures forall i, j :: i in Winners(quotas, total) && 0 <= j < |quotas| && j !in Winners(quotas, total) ==>
      quotas[i].fraction >= quotas[j].fraction
  {
    var ranked, winners, m := Ranked(quotas), Winners(quotas, total), Remainder(quotas, total);
    RankedProperties(quotas);
    assert winners == ranked[..m];
    DistinctSize(winners);
    forall i | i in winners ensures 0 <= i < |quotas| { assert i in ranked; }
    forall i, j | i in winners && 0 <= j < |quotas| && j !in winners ensures quotas[i].fraction >= quotas[j].fraction {
      assert i in ranked && j in ranked;
      var a :| 0 <= a < m && ranked[a] == i;
      var b :| 0 <= b < |ranked| && ranked[b] == j;
      assert forall c :: 0 <= c < m ==> ranked[c] == winners[c];
      assert FractionAt(quotas, ranked[a]) >= FractionAt(quotas, ranked[b]);
    }
  }

  lemma AllocationSums(quotas: seq<Quota>, total: nat)
    requires 0 <= Remainder(quotas, total) <= |quotas|
    ensures Sum(Allocate(quotas, total)) == total
  {
    WinnersProperties(quotas, total);
    var winners := set i | i in Winners(quotas, total);
    var seats := Seats(|quotas|, Winners(quotas, total));
    SumIndicator(|quotas|, winners, seats);
    SumAdd(Floors(quotas), seats, Allocate(quotas, total));
  }

  /** The targets add up to the requested total. */
  lemma TargetsSumToTotal(counts: seq<nat>, total: nat)
    requires Counts(counts)
    ensures Sum(Targets(counts, total)) == total
  {
    QuotasExact(counts, total);
    FractionsFillRemainder(Quotas(counts, total), counts, total);
    AllocationSums(Quotas(counts, total), total);
  }

  /** A class gets an extra seat only when its quota has a positive fractional part. */
  lemma WinnersHaveFractions(quotas: seq<Quota>, counts: seq<nat>, total: nat, winner: int)
    requires Counts(counts) && Exact(quotas, counts, total, Sum(counts))
    requires winner in Winners(quotas, total)
    ensures 0 <= winner < |counts| && quotas[winner].fraction > 0
  {
    FractionsFillRemainder(quotas, counts, total);
    WinnerFraction(quotas, total, Sum(counts), winner);
  }

  lemma WinnerFraction(quotas: seq<Quota>, total: nat, observed: int, winner: int)
    requires 0 <= Remainder(quotas, total) <= |quotas| && Sum(Fractions(quotas)) == observed * Remainder(quotas, total)
    requires forall i :: 0 <= i < |quotas| ==> 0 <= quotas[i].fraction < observed
    requires winner in Winners(quotas, total)
    ensures 0 <= winner < |quotas| && quotas[winner].fraction > 0
  {
    WinnersProperties(quotas, total);
    var winners := set i | i in Winners(quotas, total);
    if quotas[winner].fraction == 0 {
      // Only the other winners have positive parts, each below `observed`: too little to fill the remainder.
      FractionsBySupport(quotas, observed, winners - {winner});
      Successor(observed, |winners| - 1);
      assert false;
    }
  }

  lemma FractionsBySupport(quotas: seq<Quota>, observed: int, support: set<int>)
    requires forall i :: 0 <= i < |quotas| ==> 0 <= quotas[i].fraction < observed
    requires forall i :: 0 <= i < |quotas| && i !in support ==> quotas[i].fraction == 0
    requires forall i :: i in support ==> 0 <= i < |quotas|
    ensures Sum(Fractions(quotas)) <= observed * |support|
  {
    var n := |quotas|;
    var seats := seq(n, i requires 0 <= i < n => if i in support then 1 else 0);
    SumIndicator(n, support, seats);
    var bound := seq(n, i requires 0 <= i < n => if i in support then observed else 0);
    SumScale(seats, observed, bound);
    SumMonotone(Fractions(quotas), bound);
  }

  /** A target less than one seat away from its quota, so its floor or its ceiling, and at most the class
      count unless more pieces are requested than were observed. */
  ghost predicate WithinQuota(t: int, total: nat, count: nat, observed: int) {
    && 0 <= t
    && observed * (t - 1) < total * count < observed * (t + 1)
    && (total <= observed ==> t <= count)
  }

  /** Each target is the floor or the ceiling of its quota (less than one seat away from it), never above
      the class count when the request is at most what was observed. */
  lemma TargetWithinQuota(counts: seq<nat>, total: nat, i: nat)
    requires Counts(counts) && i < |counts|
    ensures WithinQuota(Targets(counts, total)[i], total, counts[i], Sum(counts))
  {
    QuotasExact(counts, total);
    AllocatedWithinQuota(Quotas(counts, total), counts, total, i);
  }

  lemma AllocatedWithinQuota(quotas: seq<Quota>, counts: seq<nat>, total: nat, i: nat)
    requires Counts(counts) && i < |counts| && Exact(quotas, counts, total, Sum(counts))
    ensures WithinQuota(Allocate(quotas, total)[i], total, counts[i], Sum(counts))
  {
    var won := i in Winners(quotas, total);
    if won { WinnersHaveFractions(quotas, counts, total, i); }
    FloorOrCeiling(Sum(counts), total, counts[i], quotas[i], won);
  }

  lemma FloorOrCeiling(observed: nat, total: nat, count: nat, q: Quota, won: bool)
    requires 0 <= q.fraction < observed && 0 <= q.floor && observed * q.floor + q.fraction == total * count
    requires won ==> q.fraction > 0
    ensures WithinQuota(q.floor + if won then 1 else 0, total, count, observed)
  {
    Successor(observed, q.floor - 1);
    Successor(observed, q.floor);
    Successor(observed, q.floor + 1);
    if total <= observed {
      ScaledLe(total, observed, count);
      Successor(observed, count);
      if won { CancelLess(observed, q.floor, count); } else { CancelLess(observed, q.floor, count + 1); }
    }
  }

  lemma Successor(k: int, a: int)
    ensures k * (a + 1) == k * a + k
  {
  }

  // ---------------------------------------------------------------------------- optimality

  function Abs(x: int): nat { if x < 0 then -x else x }

  /** Distances of an allocation from the quotas, scaled by the observed total: |observed*t - total*c|. */
  function Distances(counts: seq<nat>, total: nat, allocation: seq<int>): (r: seq<int>)
    requires |allocation| == |counts|
  {
    seq(|counts|, i requires 0 <= i < |counts| => Abs(Sum(counts) * allocation[i] - total * counts[i]))
  }

  /** Smallest fractional part among the winners (the observed total when nothing is left over). */
  function Threshold(quotas: seq<Quota>, total: nat, observed: int): int {
    var winners := Winners(quotas, total);
    if winners == [] then observed else FractionAt(quotas, winners[|winners| - 1])
  }

  lemma ThresholdSeparates(quotas: seq<Quota>, total: nat, observed: int, i: int)
    requires 0 <= Remainder(quotas, total) <= |quotas| && 0 <= i < |quotas|
    requires forall k :: 0 <= k < |quotas| ==> 0 <= quotas[k].fraction < observed
    ensures 0 <= Threshold(quotas, total, observed) <= observed
    ensures if i in Winners(quotas, total) then quotas[i].fraction >= Threshold(quotas, total, observed)
            else quotas[i].fraction <= Threshold(quotas, total, observed)
  {
    WinnersProperties(quotas, total);
    RankedProperties(quotas);
    var winners, ranked := Winners(quotas, total), Ranked(quotas);
    if winners != [] {
      var last := |winners| - 1;
      assert winners[last] in winners;
      assert winners == ranked[..|winners|];
      if i in winners {
        var a :| 0 <= a <= last && winners[a] == i;
        assert a == last || FractionAt(quotas, ranked[a]) >= FractionAt(quotas, ranked[last]);
      }
    }
  }

  /** One class at a seat price of `observed - 2*threshold`: no number of extra seats beats the target's.
      `shift` is `observed*extra` and `step` is `threshold*extra`. */
  lemma PricedClassOptimal(observed: int, fraction: int, threshold: int, won: bool, extra: int, shift: int, step: int)
    requires 0 <= fraction < observed && 0 <= threshold <= observed
    requires if won then threshold <= fraction else fraction <= threshold
    requires if extra >= 1 then shift >= observed && step >= threshold else shift <= 0 && shift <= step
    ensures (if won then observed - fraction - (observed - 2 * threshold) else fraction)
         <= Abs(shift - fraction) - (shift - 2 * step)
  {
  }

  lemma Multiples(observed: int, threshold: int, extra: int)
    requires 0 <= threshold <= observed
    ensures if extra >= 1 then observed * extra >= observed && threshold * extra >= threshold
            else observed * extra <= 0 && observed * extra <= threshold * extra
  {
    if extra <= 0 { assert (observed - threshold) * extra <= 0; }
  }

  /** The cost of `other` seats for a class, after paying the seat price for what exceeds the floor. */
  function Priced(observed: int, threshold: int, q: Quota, other: int): int {
    Abs(observed * (other - q.floor) - q.fraction) - (observed - 2 * threshold) * (other - q.floor)
  }

  lemma ClassOptimal(observed: int, threshold: int, q: Quota, won: bool, other: int)
    requires 0 <= q.fraction < observed && 0 <= threshold <= observed
    requires if won then threshold <= q.fraction else q.fraction <= threshold
    ensures Priced(observed, threshold, q, q.floor + if won then 1 else 0) <= Priced(observed, threshold, q, other)
  {
    var extra := other - q.floor;
    Multiples(observed, threshold, extra);
    PricedClassOptimal(observed, q.fraction, threshold, won, extra, observed * extra, threshold * extra);
    assert (observed - 2 * threshold) * extra == observed * extra - 2 * (threshold * extra);
    assert observed * 1 == observed && observed * 0 == 0 && (observed - 2 * threshold) * 0 == 0;
  }

  lemma DistanceFromFloor(observed: int, threshold: int, q: Quota, quota: int, t: int)
    requires observed * q.floor + q.fraction == quota
    ensures Abs(observed * t - quota) == Priced(observed, threshold, q, t) + (observed - 2 * threshold) * (t - q.floor)
  {
    assert observed * (t - q.floor) == observed * t - observed * q.floor;
  }

  /** What the seat price adds to each class of an allocation. */
  function Paid(quotas: seq<Quota>, price: int, allocation: seq<int>): (r: seq<int>)
    requires |allocation| == |quotas|
    ensures |r| == |quotas|
  {
    Scaled(price, AboveFloors(quotas, allocation))
  }

  function PricedCosts(quotas: seq<Quota>, observed: int, threshold: int, allocation: seq<int>): (r: seq<int>)
    requires |allocation| == |quotas|
    ensures |r| == |quotas|
  {
    seq(|quotas|, i requires 0 <= i < |quotas| => Priced(observed, threshold, quotas[i], allocation[i]))
  }

  function AboveFloors(quotas: seq<Quota>, allocation: seq<int>): (r: seq<int>)
    requires |allocation| == |quotas|
    ensures |r| == |quotas|
  {
    seq(|quotas|, i requires 0 <= i < |quotas| => allocation[i] - quotas[i].floor)
  }

  lemma AboveTotal(quotas: seq<Quota>, allocation: seq<int>)
    requires |allocation| == |quotas|
    ensures Sum(AboveFloors(quotas, allocation)) == Sum(allocation) - Sum(Floors(quotas))
  {
    SumAdd(AboveFloors(quotas, allocation), Floors(quotas), allocation);
  }

  /** What an allocation of `sum` pieces pays at a price per piece above the floors. */
  function Premium(quotas: seq<Quota>, price: int, sum: int): int {
    price * (sum - Sum(Floors(quotas)))
  }

  lemma PremiumOf(quotas: seq<Quota>, price: int, above: int, sum: int)
    requires above == sum - Sum(Floors(quotas))
    ensures price * above == Premium(quotas, price, sum)
  {
  }

  lemma PaidTotal(quotas: seq<Quota>, price: int, allocation: seq<int>)
    requires |allocation| == |quotas|
    ensures Sum(Paid(quotas, price, allocation)) == Premium(quotas, price, Sum(allocation))
  {
    var above := AboveFloors(quotas, allocation);
    SumScaled(price, above);
    AboveTotal(quotas, allocation);
    PremiumOf(quotas, price, Sum(above), Sum(allocation));
  }

  lemma DistanceParts(quotas: seq<Quota>, counts: seq<nat>, total: nat, threshold: int, allocation: seq<int>)
    requires Exact(quotas, counts, total, Sum(counts)) && |allocation| == |counts|
    ensures Sum(Distances(counts, total, allocation))
      == Sum(PricedCosts(quotas, Sum(counts), threshold, allocation))
        + Sum(Paid(quotas, Sum(counts) - 2 * threshold, allocation))
  {
    var observed := Sum(counts);
    var priced, paid := PricedCosts(quotas, observed, threshold, allocation),
      Paid(quotas, observed - 2 * threshold, allocation);
    forall i | 0 <= i < |counts| ensures Distances(counts, total, allocation)[i] == priced[i] + paid[i] {
      DistanceFromFloor(observed, threshold, quotas[i], total * counts[i], allocation[i]);
    }
    SumAdd(priced, paid, Distances(counts, total, allocation));
  }

  lemma DistanceIsPricedCost(quotas: seq<Quota>, counts: seq<nat>, total: nat, threshold: int, allocation: seq<int>)
    requires Exact(quotas, counts, total, Sum(counts)) && |allocation| == |counts|
    ensures Sum(Distances(counts, total, allocation))
      == Sum(PricedCosts(quotas, Sum(counts), threshold, allocation))
        + Premium(quotas, Sum(counts) - 2 * threshold, Sum(allocation))
  {
    DistanceParts(quotas, counts, total, threshold, allocation);
    PaidTotal(quotas, Sum(counts) - 2 * threshold, allocation);
  }

  /** No other integer allocation of the same total is closer to the quotas in summed absolute distance. */
  lemma TargetsAreClosest(counts: seq<nat>, total: nat, allocation: seq<int>)
    requires Counts(counts) && |allocation| == |counts| && Sum(allocation) == total
    ensures Sum(Distances(counts, total, Targets(counts, total))) <= Sum(Distances(counts, total, allocation))
  {
    QuotasExact(counts, total);
    TargetsSumToTotal(counts, total);
    AllocationIsClosest(Quotas(counts, total), counts, total, allocation);
  }

  lemma AllocationIsClosest(quotas: seq<Quota>, counts: seq<nat>, total: nat, allocation: seq<int>)
    requires Counts(counts) && Exact(quotas, counts, total, Sum(counts)) && |allocation| == |counts|
    requires Sum(allocation) == total == Sum(Allocate(quotas, total))
    ensures Sum(Distances(counts, total, Allocate(quotas, total))) <= Sum(Distances(counts, total, allocation))
  {
    FractionsFillRemainder(quotas, counts, total);
    var threshold := Threshold(quotas, total, Sum(counts));
    SamePriceComparison(quotas, counts, total, threshold, Allocate(quotas, total), allocation);
    TargetsPricedOptimal(quotas, total, Sum(counts), allocation);
  }

  /** For allocations with the same sum, total distance and total priced cost differ by the same amount. */
  lemma SamePriceComparison(quotas: seq<Quota>, counts: seq<nat>, total: nat, threshold: int, a: seq<int>, b: seq<int>)
    requires Exact(quotas, counts, total, Sum(counts)) && |a| == |b| == |counts| && Sum(a) == Sum(b)
    ensures Sum(Distances(counts, total, a)) - Sum(PricedCosts(quotas, Sum(counts), threshold, a))
         == Sum(Distances(counts, total, b)) - Sum(PricedCosts(quotas, Sum(counts), threshold, b))
  {
    DistanceIsPricedCost(quotas, counts, total, threshold, a);
    DistanceIsPricedCost(quotas, counts, total, threshold, b);
  }

  lemma TargetsPricedOptimal(quotas: seq<Quota>, total: nat, observed: int, allocation: seq<int>)
    requires 0 <= Remainder(quotas, total) <= |quotas| == |allocation|
    requires forall k :: 0 <= k < |quotas| ==> 0 <= quotas[k].fraction < observed
    ensures var threshold := Threshold(quotas, total, observed);
      Sum(PricedCosts(quotas, observed, threshold, Allocate(quotas, total)))
        <= Sum(PricedCosts(quotas, observed, threshold, allocation))
  {
    var threshold, targets := Threshold(quotas, total, observed), Allocate(quotas, total);
    var priced, other := PricedCosts(quotas, observed, threshold, targets),
      PricedCosts(quotas, observed, threshold, allocation);
    forall i | 0 <= i < |quotas| ensures priced[i] <= other[i] {
      ThresholdSeparates(quotas, total, observed, i);
      ClassOptimal(observed, threshold, quotas[i], i in Winners(quotas, total), allocation[i]);
    }
    SumMonotone(priced, other);
  }

  // ---------------------------------------------------------------------------- from replay rows

  predicate IsGood(row: PlanRow) { !row.isDefective }

  lemma {:induction false} SumIncrement(counts: Counter, key: string)
    ensures Sum(Values(Increment(counts, key))) == Sum(Values(counts)) + 1
  {
    if counts != [] {
      assert Values(counts)[1..] == Values(counts[1..]);
      var next := Increment(counts, key);
      assert Values(next)[1..] == Values(next[1..]);
      if counts[0].0 != key {
        SumIncrement(counts[1..], key);
      }
    }
  }

  lemma {:induction false} ObservedTotal(rows: seq<PlanRow>)
    ensures Sum(Values(CountGood(rows))) == CountIf(rows, IsGood)
  {
    if rows != [] {
      var before, last := rows[..|rows| - 1], rows[|rows| - 1];
      ObservedTotal(before);
      assert rows == before + [last];
      CountIfAppend(before, [last], IsGood);
      SumIncrement(CountGood(before), last.sourceClass);
    }
  }

  lemma CountsOfRows(rows: seq<PlanRow>)
    ensures CountGood(rows) == [] || Counts(Values(CountGood(rows)))
    ensures CountIf(rows, IsGood) > 0 <==> CountGood(rows) != []
  {
    CountGoodWellFormed(rows);
    ObservedTotal(rows);
  }

  /** The allocation as a dictionary, classes in order of first appearance. */
  function ClassTargets(rows: seq<PlanRow>, total: nat): (r: seq<(string, int)>)
    ensures |r| == |CountGood(rows)|
  {
    var counts := CountGood(rows);
    CountsOfRows(rows);
    var targets := Targets(Values(counts), total);
    seq(|counts|, i requires 0 <= i < |counts| => (counts[i].0, targets[i]))
  }

  method CountGoodRows(rows: seq<PlanRow>) returns (counts: Counter)
    ensures counts == CountGood(rows)
  {
    counts := [];
    for i := 0 to |rows|
      invariant counts == CountGood(rows[..i])
    {
      assert rows[..i + 1][..i] == rows[..i];
      if !rows[i].isDefective { counts := Increment(counts, rows[i].sourceClass); }
    }
    assert rows[..|rows|] == rows;
  }

  method ComputeQuotas(counts: seq<nat>, total: nat) returns (raw: seq<Quota>)
    requires Counts(counts)
    ensures raw == Quotas(counts, total)
  {
    var observed := 0;
    for i := 0 to |counts|
      invariant observed + Sum(counts[i..]) == Sum(counts)
    {
      observed := observed + counts[i];
    }
    raw := [];
    for i := 0 to |counts|
      invariant raw == Quotas(counts, total)[..i]
    {
      raw := raw + [QuotaOf(total, counts[i], observed)];
    }
  }

  method RoundDown(raw: seq<Quota>) returns (targets: seq<int>, allotted: int)
    ensures targets == Floors(raw) && allotted == Sum(targets)
  {
    targets, allotted := [], 0;
    for i := 0 to |raw|
      invariant targets == Floors(raw)[..i] && allotted == Sum(targets)
    {
      SumSnoc(targets, raw[i].floor);
      targets, allotted := targets + [raw[i].floor], allotted + raw[i].floor;
    }
  }

  method Award(raw: seq<Quota>, total: nat) returns (targets: seq<int>)
    ensures targets == Allocate(raw, total)
  {
    var floors, allotted := RoundDown(raw);
    var winners := Head(Ranked(raw), total - allotted);
    WinnersInRange(raw, total);
    targets := AddSeats(floors, winners);
    FloorsPlusSeats(raw, total, targets);
  }

  lemma WinnersInRange(quotas: seq<Quota>, total: nat)
    ensures Distinct(Winners(quotas, total))
    ensures forall k :: 0 <= k < |Winners(quotas, total)| ==> 0 <= Winners(quotas, total)[k] < |quotas|
  {
    RankedProperties(quotas);
    forall k | 0 <= k < |Winners(quotas, total)| ensures 0 <= Winners(quotas, total)[k] < |quotas| {
      assert Winners(quotas, total)[k] in Ranked(quotas);
    }
  }

  lemma FloorsPlusSeats(quotas: seq<Quota>, total: nat, targets: seq<int>)
    requires |targets| == |quotas|
    requires forall i :: 0 <= i < |quotas| ==>
      targets[i] == Floors(quotas)[i] + if i in Winners(quotas, total) then 1 else 0
    ensures targets == Allocate(quotas, total)
  {
  }

  method AddSeats(floors: seq<int>, winners: seq<int>) returns (targets: seq<int>)
    requires Distinct(winners) && forall k :: 0 <= k < |winners| ==> 0 <= winners[k] < |floors|
    ensures |targets| == |floors|
    ensures forall i :: 0 <= i < |floors| ==> targets[i] == floors[i] + if i in winners then 1 else 0
  {
    targets := floors;
    for k := 0 to |winners|
      invariant |targets| == |floors|
      invariant forall j :: 0 <= j < k ==> targets[winners[j]] == floors[winners[j]] + 1
      invariant forall i :: 0 <= i < |floors| && (forall j :: 0 <= j < k ==> winners[j] != i) ==>
        targets[i] == floors[i]
    {
      assert targets[winners[k]] == floors[winners[k]];
      targets := targets[winners[k] := targets[winners[k]] + 1];
    }
  }

  method GoodTargets(rows: seq<PlanRow>, total: nat) returns (result: seq<(string, int)>)
    ensures result == ClassTargets(rows, total)
  {
    var counts := CountGoodRows(rows);
    CountsOfRows(rows);
    result := [];
    if counts != [] {
      var raw := ComputeQuotas(Values(counts), total);
      var targets := Award(raw, total);
      for i := 0 to |counts|
        invariant result == ClassTargets(rows, total)[..i]
      {
        result := result + [(counts[i].0, targets[i])];
      }
    }
  }

  // ---------------------------------------------------------------------------- when a target falls

  /** One more piece raises each quota by the share of its class: its floor grows by at most one, never falls. */
  lemma NextQuota(total: nat, count: nat, observed: nat)
    requires observed > 0
    ensures var q, next := QuotaOf(total, count, observed), QuotaOf(total + 1, count, observed);
      && q.floor <= next.floor
      && observed * (next.floor - q.floor) == count + q.fraction - next.fraction
      && (count <= observed ==> next.floor <= q.floor + 1)
  {
    QuotaExact(total, count, observed);
    QuotaExact(total + 1, count, observed);
    FloorDifference(observed, count, QuotaOf(total, count, observed), QuotaOf(total + 1, count, observed), total);
  }

  lemma FloorDifference(observed: int, count: int, q: Quota, next: Quota, total: int)
    requires 0 <= q.fraction < observed && 0 <= next.fraction < observed && 0 <= count
    requires observed * q.floor + q.fraction == total * count
      && observed * next.floor + next.fraction == (total + 1) * count
    ensures observed * (next.floor - q.floor) == count + q.fraction - next.fraction
    ensures q.floor <= next.floor && (count <= observed ==> next.floor <= q.floor + 1)
  {
    assert (total + 1) * count == total * count + count;
    assert observed * (next.floor - q.floor) == observed * next.floor - observed * q.floor;
    CancelLess(observed, -1, next.floor - q.floor);
    if count <= observed { CancelLess(observed, next.floor - q.floor, 2); }
  }

  /** A class gets less of a larger holdout exactly when its floor stays and it loses the extra piece it had. */
  lemma TargetFallsIff(counts: seq<nat>, total: nat, i: nat)
    requires Counts(counts) && i < |counts|
    ensures Targets(counts, total + 1)[i] < Targets(counts, total)[i]
       <==> && Quotas(counts, total + 1)[i].floor == Quotas(counts, total)[i].floor
            && i in Winners(Quotas(counts, total), total) && i !in Winners(Quotas(counts, total + 1), total + 1)
  {
    NextQuota(total, counts[i], Sum(counts));
  }

  /** The order of the ranking: a larger fractional part first, then the class seen first. */
  predicate Ahead(f: int, i: int, g: int, j: int) { f > g || (f == g && i <= j) }

  function ByFractionThenIndex(quotas: seq<Quota>): (int, int) -> bool {
    (i: int, j: int) => Ahead(FractionAt(quotas, i), i, FractionAt(quotas, j), j)
  }

  lemma RankedByIndex(quotas: seq<Quota>)
    ensures Ordered(Ranked(quotas), ByFractionThenIndex(quotas))
  {
    var indexes := Indexes(|quotas|);
    SortedAlike(indexes, ByFraction(quotas), ByFractionThenIndex(quotas));
    SortedOrdered(indexes, ByFractionThenIndex(quotas));
  }

  /** A class that gets an extra piece is ahead of one that does not. */
  lemma WinnerAhead(quotas: seq<Quota>, total: nat, i: nat, j: nat)
    requires 0 <= Remainder(quotas, total) <= |quotas| && i < |quotas| && j < |quotas|
    requires i in Winners(quotas, total) && j !in Winners(quotas, total)
    ensures Ahead(quotas[i].fraction, i, quotas[j].fraction, j)
  {
    var ranked, m := Ranked(quotas), Remainder(quotas, total);
    RankedProperties(quotas);
    RankedByIndex(quotas);
    assert Winners(quotas, total) == ranked[..m];
    assert j in ranked;
    var a :| 0 <= a < m && ranked[..m][a] == i;
    var b :| 0 <= b < |ranked| && ranked[b] == j;
    assert forall c :: 0 <= c < m ==> ranked[..m][c] == ranked[c];
    assert ByFractionThenIndex(quotas)(ranked[a], ranked[b]);
  }

  /** What a class gets beyond the floor of its quota. */
  function ExtraPiece(counts: seq<nat>, total: nat, i: nat): int
    requires i < |counts| && Sum(counts) > 0
  {
    Targets(counts, total)[i] - Quotas(counts, total)[i].floor
  }

  lemma ExtraPieceWon(counts: seq<nat>, total: nat, i: nat)
    requires i < |counts| && Sum(counts) > 0
    ensures ExtraPiece(counts, total, i) == if i in Winners(Quotas(counts, total), total) then 1 else 0
  {
  }

  lemma RemainderInRange(counts: seq<nat>, total: nat)
    requires Counts(counts)
    ensures 0 <= Remainder(Quotas(counts, total), total) <= |counts|
  {
    QuotasExact(counts, total);
    FractionsFillRemainder(Quotas(counts, total), counts, total);
  }

  /** Every class gets the floor of its quota or one piece more, and a class with an extra piece has a larger fraction
      than one without, or the same and was seen first. */
  lemma ExtraPieceRule(counts: seq<nat>, total: nat, i: nat, j: nat)
    requires Counts(counts) && i < |counts| && j < |counts|
    ensures Exact(Quotas(counts, total), counts, total, Sum(counts))
    ensures ExtraPiece(counts, total, i) in {0, 1} && ExtraPiece(counts, total, j) in {0, 1}
    ensures ExtraPiece(counts, total, i) > ExtraPiece(counts, total, j) ==>
      var p, q := Quotas(counts, total)[i].fraction, Quotas(counts, total)[j].fraction;
      p > q || (p == q && i < j)
  {
    QuotasExact(counts, total);
    RemainderInRange(counts, total);
    ExtraPieceWon(counts, total, i);
    ExtraPieceWon(counts, total, j);
    if i in Winners(Quotas(counts, total), total) && j !in Winners(Quotas(counts, total), total) {
      WinnerAhead(Quotas(counts, total), total, i, j);
    }
  }

  /** What `NextQuota` says of one class. */
  ghost predicate Rises(observed: int, count: int, q: Quota, next: Quota) {
    && 0 <= q.fraction < observed && 0 <= next.fraction < observed
    && q.floor <= next.floor <= q.floor + 1 && observed * (next.floor - q.floor) == count + q.fraction - next.fraction
  }

  lemma ClassRises(q: seq<Quota>, next: seq<Quota>, counts: seq<nat>, total: nat, i: nat)
    requires i < |counts| && 0 <= counts[i] <= Sum(counts)
    requires Exact(q, counts, total, Sum(counts)) && Exact(next, counts, total + 1, Sum(counts))
    ensures Rises(Sum(counts), counts[i], q[i], next[i])
  {
    FloorDifference(Sum(counts), counts[i], q[i], next[i], total);
  }

  lemma OneOrNone(observed: int, rise: int)
    requires 0 <= rise <= 1
    ensures observed * rise == if rise == 1 then observed else 0
  {
  }

  /** When class i loses its extra piece, another class gains at most one piece, and none unless it is larger. */
  lemma GainOfOther(observed: int, c: int, q: Quota, q': Quota, i: int, d: int, r: Quota, r': Quota, j: int, seat: int,
                    seat': int)
    requires 0 < c <= observed && 0 < d <= observed && i != j
    requires Rises(observed, c, q, q') && Rises(observed, d, r, r') && q'.floor == q.floor
    requires 0 <= seat <= 1 && 0 <= seat' <= 1
    requires seat == 0 ==> Ahead(q.fraction, i, r.fraction, j)
    requires seat' == 1 ==> Ahead(r'.fraction, j, q'.fraction, i)
    ensures r'.floor + seat' <= r.floor + seat + 1
    ensures d <= c ==> r'.floor + seat' <= r.floor + seat
  {
    OneOrNone(observed, q'.floor - q.floor);
    OneOrNone(observed, r'.floor - r.floor);
  }

  function Seat(quotas: seq<Quota>, total: nat, i: nat): int { if i in Winners(quotas, total) then 1 else 0 }

  ghost predicate LosesSeat(q: seq<Quota>, next: seq<Quota>, total: nat, i: nat)
    requires i < |q| == |next|
  {
    next[i].floor == q[i].floor && Seat(q, total, i) == 1 && Seat(next, total + 1, i) == 0
  }

  lemma GainWhenOtherLoses(q: seq<Quota>, next: seq<Quota>, counts: seq<nat>, total: nat, i: nat, j: nat)
    requires Counts(counts) && i < |counts| && j < |counts| && i != j && counts[i] <= Sum(counts)
      && counts[j] <= Sum(counts)
    requires Exact(q, counts, total, Sum(counts)) && Exact(next, counts, total + 1, Sum(counts))
    requires LosesSeat(q, next, total, i)
    ensures var gain := next[j].floor + Seat(next, total + 1, j) - q[j].floor - Seat(q, total, j);
      gain <= 1 && (counts[j] <= counts[i] ==> gain <= 0)
  {
    FractionsFillRemainder(q, counts, total);
    FractionsFillRemainder(next, counts, total + 1);
    ClassRises(q, next, counts, total, i);
    ClassRises(q, next, counts, total, j);
    if j !in Winners(q, total) { WinnerAhead(q, total, i, j); }
    if j in Winners(next, total + 1) { WinnerAhead(next, total + 1, j, i); }
    GainOfOther(Sum(counts), counts[i], q[i], next[i], i, counts[j], q[j], next[j], j, Seat(q, total, j),
                Seat(next, total + 1, j));
  }

  lemma {:induction false} CountAtMostSum(counts: seq<nat>, i: nat)
    requires i < |counts|
    ensures counts[i] <= Sum(counts)
  {
    if i > 0 { CountAtMostSum(counts[1..], i - 1); } else { SumNotNegative(counts[1..]); }
  }

  lemma {:induction false} SumNotNegative(counts: seq<nat>)
    ensures Sum(counts) >= 0
  {
    if counts != [] { SumNotNegative(counts[1..]); }
  }

  /** A list that adds up to 1 although one entry is -1 and none exceeds 1 has two entries equal to 1. */
  lemma TwoGains(gains: seq<int>, i: nat) returns (j: nat, k: nat)
    requires Sum(gains) == 1 && i < |gains| && gains[i] == -1 && forall x :: x in gains ==> x <= 1
    ensures j < |gains| && k < |gains| && j != k && gains[j] == 1 && gains[k] == 1
  {
    var n := |gains|;
    var up := set x | 0 <= x < n && gains[x] == 1;
    var one, ups := Seats(n, [i]), seq(n, x requires 0 <= x < n => if x in up then 1 else 0);
    var rest := seq(n, x requires 0 <= x < n => gains[x] + one[x]);
    SumIndicator(n, {i}, one);
    SumAdd(gains, one, rest);
    SumIndicator(n, up, ups);
    assert forall x :: 0 <= x < n ==> gains[x] in gains;
    SumMonotone(rest, ups);
    assert |up| >= 2;
    j :| j in up;
    assert |up - {j}| >= 1;
    k :| k in up - {j};
  }

  lemma TwoGainers(before: seq<int>, after: seq<int>, i: nat) returns (j: nat, k: nat)
    requires |before| == |after| && i < |before| && Sum(after) == Sum(before) + 1 && after[i] == before[i] - 1
    requires forall x :: 0 <= x < |before| && x != i ==> after[x] - before[x] <= 1
    ensures j < |before| && k < |before| && j != k && j != i && k != i && after[j] == before[j] + 1
      && after[k] == before[k] + 1
  {
    var gains := seq(|before|, x requires 0 <= x < |before| => after[x] - before[x]);
    SumAdd(before, gains, after);
    j, k := TwoGains(gains, i);
  }

  lemma FallsByOne(counts: seq<nat>, total: nat, i: nat)
    requires Counts(counts) && i < |counts| && Targets(counts, total + 1)[i] < Targets(counts, total)[i]
    ensures Targets(counts, total + 1)[i] == Targets(counts, total)[i] - 1
  {
    TargetFallsIff(counts, total, i);
  }

  /** A class gets less of a larger holdout only if two larger classes each get one more. */
  lemma FallingClassIsSmaller(counts: seq<nat>, total: nat, i: nat) returns (j: nat, k: nat)
    requires Counts(counts) && i < |counts| && Targets(counts, total + 1)[i] < Targets(counts, total)[i]
    ensures j < |counts| && k < |counts| && j != k && counts[j] > counts[i] && counts[k] > counts[i]
    ensures Targets(counts, total + 1)[j] == Targets(counts, total)[j] + 1
    ensures Targets(counts, total + 1)[k] == Targets(counts, total)[k] + 1
  {
    TargetsSumToTotal(counts, total);
    TargetsSumToTotal(counts, total + 1);
    FallsByOne(counts, total, i);
    forall x | 0 <= x < |counts| && x != i ensures Targets(counts, total + 1)[x] - Targets(counts, total)[x] <= 1 {
      GainBesideFall(counts, total, i, x);
    }
    j, k := TwoGainers(Targets(counts, total), Targets(counts, total + 1), i);
    GainBesideFall(counts, total, i, j);
    GainBesideFall(counts, total, i, k);
  }

  lemma GainBesideFall(counts: seq<nat>, total: nat, i: nat, j: nat)
    requires Counts(counts) && i < |counts| && j < |counts| && i != j
    requires Targets(counts, total + 1)[i] < Targets(counts, total)[i]
    ensures var gain := Targets(counts, total + 1)[j] - Targets(counts, total)[j];
      gain <= 1 && (counts[j] <= counts[i] ==> gain <= 0)
  {
    TargetFallsIff(counts, total, i);
    QuotasExact(counts, total);
    QuotasExact(counts, total + 1);
    CountAtMostSum(counts, i);
    CountAtMostSum(counts, j);
    GainWhenOtherLoses(Quotas(counts, total), Quotas(counts, total + 1), counts, total, i, j);
  }

  /** So the target of a class with at most one larger class never falls, whatever the total; in particular none does
      with one or two classes. */
  lemma LargeClassesNeverFall(counts: seq<nat>, total: nat, i: nat)
    requires Counts(counts) && i < |counts|
    requires forall j, k :: 0 <= j < k < |counts| ==> counts[j] <= counts[i] || counts[k] <= counts[i]
    ensures Targets(counts, total + 1)[i] >= Targets(counts, total)[i]
  {
    if Targets(counts, total + 1)[i] < Targets(counts, total)[i] {
      var j, k := FallingClassIsSmaller(counts, total, i);
      assert false;
    }
  }

  lemma TwoClassesNeverFall(counts: seq<nat>, total: nat, i: nat)
    requires Counts(counts) && |counts| <= 2 && i < |counts|
    ensures Targets(counts, total + 1)[i] >= Targets(counts, total)[i]
  {
    LargeClassesNeverFall(counts, total, i);
  }

  // ---------------------------------------------------------------------------- not monotone

  lemma TwoFirst(quotas: seq<Quota>)
    requires |quotas| == 3
    ensures FractionAt(quotas, 2) < FractionAt(quotas, 0) == FractionAt(quotas, 1) ==> Ranked(quotas) == [0, 1, 2]
    ensures FractionAt(quotas, 2) > FractionAt(quotas, 0) == FractionAt(quotas, 1) ==> Ranked(quotas) == [2, 0, 1]
  {
    var le := ByFraction(quotas);
    assert Indexes(3) == [0, 1, 2];
    assert [0, 1, 2][1..] == [1, 2] && [1, 2][1..] == [2] && [2][1..] == [];
    assert Sorted([2], le) == [2];
    assert Sorted([1, 2], le) == Insert(1, [2], le);
    assert Sorted([0, 1, 2], le) == Insert(0, Sorted([1, 2], le), le);
    assert [2, 1][1..] == [1];
  }

  lemma SumOfThree(a: int, b: int, c: int)
    ensures Sum([a, b, c]) == a + b + c
  {
    assert [a, b, c][1..] == [b, c] && [b, c][1..] == [c] && [c][1..] == [];
    assert Sum([b, c]) == b + Sum([c]) && Sum([c]) == c;
  }

  lemma TenPieces(counts: seq<nat>)
    requires counts == [6, 6, 2] && Sum(counts) == 14
    ensures Targets(counts, 10) == [4, 4, 2]
  {
    var quotas := Quotas(counts, 10);
    assert quotas == [Quota(4, 4), Quota(4, 4), Quota(1, 6)];
    assert Floors(quotas) == [4, 4, 1];
    SumOfThree(4, 4, 1);
    TwoFirst(quotas);
    assert Winners(quotas, 10) == [2];
  }

  lemma ElevenPieces(counts: seq<nat>)
    requires counts == [6, 6, 2] && Sum(counts) == 14
    ensures Targets(counts, 11) == [5, 5, 1]
  {
    var quotas := Quotas(counts, 11);
    assert quotas == [Quota(4, 10), Quota(4, 10), Quota(1, 8)];
    assert Floors(quotas) == [4, 4, 1];
    SumOfThree(4, 4, 1);
    TwoFirst(quotas);
    assert Winners(quotas, 11) == [0, 1];
  }

  /** Asking for one more good piece can lower the target of a class: with 6, 6 and 2 good rows, the third class gets
      2 of 10 pieces, but 1 of 11. */
  lemma LargerTotalSmallerTarget(counts: seq<nat>)
    requires counts == [6, 6, 2]
    ensures Sum(counts) == 14 && Targets(counts, 10) == [4, 4, 2] && Targets(counts, 11) == [5, 5, 1]
  {
    SumOfThree(6, 6, 2);
    TenPieces(counts);
    ElevenPieces(counts);
  }
}

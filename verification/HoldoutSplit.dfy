/** The train/holdout split of the natural replay (scripts/build_replay_holdout_split.py): defect and good
    quotas per class, evenly spread picks, and the training replay that remains. */
module HoldoutSplit {
  import opened ReplayEvents
  import opened Sorting
  import opened PlanRows
  import opened Apportionment
  import opened SpreadSampling

  /** `sorted(HOLDOUT_DEFECT_TARGETS.items())` */
  const DEFECT_TARGETS: seq<(string, int)> := [("Casting_class1", 3), ("Casting_class2", 4), ("Casting_class3", 3)]

  /** A bucket of the replay and how many of its rows to hold out. */
  datatype Pick = Pick(klass: string, defective: bool, target: int)

  function Bucket(rows: seq<PlanRow>, klass: string, defective: bool): seq<PlanRow> {
    Filter(rows, InBucketOf(klass, defective))
  }

  function PicksOf(targets: seq<(string, int)>, defective: bool): (r: seq<Pick>)
    ensures |r| == |targets|
  {
    seq(|targets|, i requires 0 <= i < |targets| => Pick(targets[i].0, defective, targets[i].1))
  }

  predicate ByClass(a: (string, int), b: (string, int)) { StrLe(a.0, b.0) }

  function Picks(rows: seq<PlanRow>, goodTotal: nat): seq<Pick> {
    PicksOf(DEFECT_TARGETS, true) + PicksOf(Sorted(ClassTargets(rows, goodTotal), ByClass), false)
  }

  function PickedBy(rows: seq<PlanRow>, pick: Pick): seq<PlanRow> {
    SpreadSelection(Bucket(rows, pick.klass, pick.defective), pick.target)
  }

  function Collect(rows: seq<PlanRow>, picks: seq<Pick>): seq<PlanRow> {
    if picks == [] then []
    else SpreadSelection(Bucket(rows, picks[0].klass, picks[0].defective), picks[0].target) + Collect(rows, picks[1..])
  }

  predicate ByLabelClassTime(a: PlanRow, b: PlanRow) {
    if a.isDefective != b.isDefective then b.isDefective
    else PairLe((a.sourceClass, a.sourceTimestamp), (b.sourceClass, b.sourceTimestamp))
  }

  function Holdout(rows: seq<PlanRow>, goodTotal: nat): seq<PlanRow> {
    Sorted(Collect(rows, Picks(rows, goodTotal)), ByLabelClassTime)
  }

  // ---------------------------------------------------------------------------- what is held out

  ghost predicate DifferentBuckets(picks: seq<Pick>) {
    forall i, j :: 0 <= i < j < |picks| ==> (picks[i].klass, picks[i].defective) != (picks[j].klass, picks[j].defective)
  }

  lemma {:induction false} BucketCounts(rows: seq<PlanRow>, klass: string, defective: bool)
    ensures |Bucket(rows, klass, defective)| == CountIf(rows, InBucketOf(klass, defective))
    ensures forall r :: r in Bucket(rows, klass, defective) ==> InBucket(r, klass, defective)
    ensures forall r :: multiset(Bucket(rows, klass, defective))[r]
                     == if InBucket(r, klass, defective) then multiset(rows)[r] else 0
  {
    var keep := InBucketOf(klass, defective);
    forall r ensures multiset(Bucket(rows, klass, defective))[r] == if InBucket(r, klass, defective)
      then multiset(rows)[r] else 0 {
      FilterPermutation(rows, keep, r);
    }
    FilterSize(rows, keep);
  }

  lemma {:induction false} FilterSize<T>(xs: seq<T>, keep: T -> bool)
    ensures |Filter(xs, keep)| == CountIf(xs, keep)
  {
    if xs != [] { FilterSize(xs[1..], keep); }
  }

  /** One pick takes min(max(target, 0), available) rows of its bucket, none twice. */
  lemma PickTaken(rows: seq<PlanRow>, pick: Pick)
    ensures var taken := SpreadSelection(Bucket(rows, pick.klass, pick.defective), pick.target);
      && |taken| == Taken(rows, pick)
      && (forall r :: r in taken ==> InBucket(r, pick.klass, pick.defective))
      && (forall r :: multiset(taken)[r] <= if InBucket(r, pick.klass, pick.defective) then multiset(rows)[r] else 0)
  {
    var bucket := Bucket(rows, pick.klass, pick.defective);
    BucketCounts(rows, pick.klass, pick.defective);
    SpreadSelectionSize(bucket, pick.target);
    var taken := SpreadSelection(bucket, pick.target);
    forall r | r in taken ensures InBucket(r, pick.klass, pick.defective) {
      assert r in multiset(taken);
      assert r in multiset(bucket);
    }
  }

  function Taken(rows: seq<PlanRow>, pick: Pick): nat {
    var available := CountIf(rows, InBucketOf(pick.klass, pick.defective));
    if pick.target >= available then available else if pick.target <= 0 then 0 else pick.target
  }

  /** Picks from different buckets never take a row more often than the replay holds it. */
  lemma {:induction false} CollectOnce(rows: seq<PlanRow>, picks: seq<Pick>, row: PlanRow)
    requires DifferentBuckets(picks)
    ensures multiset(Collect(rows, picks))[row] <= multiset(rows)[row]
    ensures row in Collect(rows, picks)
      ==> exists i :: 0 <= i < |picks| && InBucket(row, picks[i].klass, picks[i].defective)
  {
    if picks != [] {
      PickTaken(rows, picks[0]);
      CollectOnce(rows, picks[1..], row);
      var taken := SpreadSelection(Bucket(rows, picks[0].klass, picks[0].defective), picks[0].target);
      var rest := Collect(rows, picks[1..]);
      assert multiset(taken + rest)[row] == multiset(taken)[row] + multiset(rest)[row];
      if row in rest {
        var i :| 0 <= i < |picks[1..]| && InBucket(row, picks[1..][i].klass, picks[1..][i].defective);
        assert picks[i + 1] == picks[1..][i];
        assert !InBucket(row, picks[0].klass, picks[0].defective);
      } else {
        assert row !in multiset(rest);
      }
    }
  }

  lemma TailDifferent(picks: seq<Pick>)
    requires DifferentBuckets(picks) && picks != []
    ensures DifferentBuckets(picks[1..])
    ensures forall j :: 0 <= j < |picks[1..]| ==>
      (picks[1..][j].klass, picks[1..][j].defective) != (picks[0].klass, picks[0].defective)
  {
    assert forall j :: 0 <= j < |picks[1..]| ==> picks[1..][j] == picks[j + 1];
  }

  lemma OthersAddNothing(rows: seq<PlanRow>, picks: seq<Pick>, klass: string, defective: bool)
    requires DifferentBuckets(picks) && forall j :: 0 <= j < |picks| ==>
      (picks[j].klass, picks[j].defective) != (klass, defective)
    ensures CountIf(Collect(rows, picks), InBucketOf(klass, defective)) == 0
  {
    forall r | r in Collect(rows, picks) ensures !InBucket(r, klass, defective) { CollectOnce(rows, picks, r); }
    CountIfUniform(Collect(rows, picks), InBucketOf(klass, defective), false);
  }

  lemma TakenCount(rows: seq<PlanRow>, pick: Pick, klass: string, defective: bool)
    ensures CountIf(SpreadSelection(Bucket(rows, pick.klass, pick.defective), pick.target),
                    InBucketOf(klass, defective))
      == if (pick.klass, pick.defective) == (klass, defective) then Taken(rows, pick) else 0
  {
    PickTaken(rows, pick);
    CountIfUniform(SpreadSelection(Bucket(rows, pick.klass, pick.defective), pick.target), InBucketOf(klass, defective),
                   (pick.klass, pick.defective) == (klass, defective));
  }

  /** The bucket of a pick contributes exactly what that pick takes. */
  lemma {:induction false} CollectBucketCount(rows: seq<PlanRow>, picks: seq<Pick>, i: nat)
    requires DifferentBuckets(picks) && i < |picks|
    ensures CountIf(Collect(rows, picks), InBucketOf(picks[i].klass, picks[i].defective)) == Taken(rows, picks[i])
  {
    var klass, defective := picks[i].klass, picks[i].defective;
    var taken := SpreadSelection(Bucket(rows, picks[0].klass, picks[0].defective), picks[0].target);
    CountIfAppend(taken, Collect(rows, picks[1..]), InBucketOf(klass, defective));
    TakenCount(rows, picks[0], klass, defective);
    TailDifferent(picks);
    if i == 0 {
      OthersAddNothing(rows, picks[1..], klass, defective);
    } else {
      CollectBucketCount(rows, picks[1..], i - 1);
    }
  }

  lemma NotTakenElsewhere(rows: seq<PlanRow>, pick: Pick, row: PlanRow)
    requires !InBucket(row, pick.klass, pick.defective)
    ensures multiset(PickedBy(rows, pick))[row] == 0
  {
    PickTaken(rows, pick);
    assert row !in multiset(PickedBy(rows, pick));
  }

  /** A row of the bucket of a pick is collected as often as that pick selects it. */
  lemma {:induction false} CollectedAsPicked(rows: seq<PlanRow>, picks: seq<Pick>, i: nat, row: PlanRow)
    requires DifferentBuckets(picks) && i < |picks| && InBucket(row, picks[i].klass, picks[i].defective)
    ensures multiset(Collect(rows, picks))[row] == multiset(PickedBy(rows, picks[i]))[row]
  {
    var first, rest := picks[0], picks[1..];
    TailDifferent(picks);
    assert multiset(Collect(rows, picks))[row]
      == multiset(PickedBy(rows, first))[row] + multiset(Collect(rows, rest))[row];
    if i == 0 {
      if row in Collect(rows, rest) { CollectOnce(rows, rest, row); }
      assert row !in multiset(Collect(rows, rest));
    } else {
      NotTakenElsewhere(rows, first, row);
      CollectedAsPicked(rows, rest, i - 1, row);
    }
  }

  /** The rows held out of a bucket are those the evenly spread selection picks for its target. */
  lemma HoldoutPicks(rows: seq<PlanRow>, goodTotal: nat, i: nat, row: PlanRow)
    requires i < |Picks(rows, goodTotal)|
    requires InBucket(row, Picks(rows, goodTotal)[i].klass, Picks(rows, goodTotal)[i].defective)
    ensures multiset(Holdout(rows, goodTotal))[row] == multiset(PickedBy(rows, Picks(rows, goodTotal)[i]))[row]
  {
    PicksDiffer(rows, goodTotal);
    SortedPermutes(Collect(rows, Picks(rows, goodTotal)), ByLabelClassTime);
    CollectedAsPicked(rows, Picks(rows, goodTotal), i, row);
  }

  /** Good rows come from the good picks alone; when every good target is met they add up to the targets. */
  lemma {:induction false} CollectGoodCount(rows: seq<PlanRow>, picks: seq<Pick>)
    requires forall i :: 0 <= i < |picks| && !picks[i].defective ==> Taken(rows, picks[i]) == picks[i].target
    ensures CountIf(Collect(rows, picks), IsGood) == GoodTargetSum(picks)
  {
    if picks != [] {
      var taken := SpreadSelection(Bucket(rows, picks[0].klass, picks[0].defective), picks[0].target);
      PickTaken(rows, picks[0]);
      CountIfUniform(taken, IsGood, !picks[0].defective);
      CountIfAppend(taken, Collect(rows, picks[1..]), IsGood);
      assert Taken(rows, picks[0]) == |taken|;
      CollectGoodCount(rows, picks[1..]);
    }
  }

  function GoodTargetSum(picks: seq<Pick>): int {
    if picks == [] then 0 else (if picks[0].defective then 0 else picks[0].target) + GoodTargetSum(picks[1..])
  }

  lemma {:induction false} GoodTargetSumAppend(a: seq<Pick>, b: seq<Pick>)
    ensures GoodTargetSum(a + b) == GoodTargetSum(a) + GoodTargetSum(b)
  {
    if a == [] {
      assert a + b == b;
    } else {
      GoodTargetSumAppend(a[1..], b);
      assert (a + b)[1..] == a[1..] + b;
    }
  }

  function SecondSum(targets: seq<(string, int)>): int {
    if targets == [] then 0 else targets[0].1 + SecondSum(targets[1..])
  }

  lemma {:induction false} PickSums(targets: seq<(string, int)>, defective: bool)
    ensures GoodTargetSum(PicksOf(targets, defective)) == if defective then 0 else SecondSum(targets)
  {
    if targets != [] {
      PickSums(targets[1..], defective);
      assert PicksOf(targets, defective)[1..] == PicksOf(targets[1..], defective);
    }
  }

  lemma {:induction false} SecondSumAppend(a: seq<(string, int)>, b: seq<(string, int)>)
    ensures SecondSum(a + b) == SecondSum(a) + SecondSum(b)
  {
    if a == [] {
      assert a + b == b;
    } else {
      SecondSumAppend(a[1..], b);
      assert (a + b)[1..] == a[1..] + b;
    }
  }

  lemma {:induction false} SecondSumPermutation(a: seq<(string, int)>, b: seq<(string, int)>)
    requires multiset(a) == multiset(b)
    ensures SecondSum(a) == SecondSum(b)
  {
    if a == [] {
      assert |multiset(b)| == 0;
    } else {
      assert a[0] in multiset(b);
      var k :| 0 <= k < |b| && b[k] == a[0];
      RemoveMatching(a, b, k);
      SecondSumPermutation(a[1..], b[..k] + b[k + 1..]);
      assert b == b[..k] + ([b[k]] + b[k + 1..]);
      SecondSumAppend(b[..k], [b[k]] + b[k + 1..]);
      SecondSumAppend(b[..k], b[k + 1..]);
    }
  }

  lemma {:induction false} SecondSumIsSum(targets: seq<(string, int)>, values: seq<int>)
    requires |targets| == |values| && forall i :: 0 <= i < |values| ==> targets[i].1 == values[i]
    ensures SecondSum(targets) == Sum(values)
  {
    if values != [] { SecondSumIsSum(targets[1..], values[1..]); }
  }

  /** The good targets add up to the request and none exceeds what its class has. */
  lemma ClassTargetsProperties(rows: seq<PlanRow>, goodTotal: nat)
    requires 0 < CountIf(rows, IsGood) && goodTotal <= CountIf(rows, IsGood)
    ensures SecondSum(ClassTargets(rows, goodTotal)) == goodTotal
    ensures forall i :: 0 <= i < |ClassTargets(rows, goodTotal)| ==>
      var t := ClassTargets(rows, goodTotal)[i];
      0 <= t.1 <= CountIf(rows, InBucketOf(t.0, false))
  {
    CountsOfRows(rows);
    ObservedTotal(rows);
    CountGoodWellFormed(rows);
    var counts := CountGood(rows);
    var values := Values(counts);
    TargetsSumToTotal(values, goodTotal);
    SecondSumIsSum(ClassTargets(rows, goodTotal), Targets(values, goodTotal));
    forall i | 0 <= i < |ClassTargets(rows, goodTotal)|
      ensures var t := ClassTargets(rows, goodTotal)[i]; 0 <= t.1 <= CountIf(rows, InBucketOf(t.0, false))
    {
      WithinClass(values, goodTotal, i);
      CountAtIndex(counts, i);
      CountGoodCounts(rows, counts[i].0);
    }
  }

  lemma WithinClass(values: seq<nat>, goodTotal: nat, i: nat)
    requires Counts(values) && i < |values| && goodTotal <= Sum(values)
    ensures 0 <= Targets(values, goodTotal)[i] <= values[i]
  {
    TargetWithinQuota(values, goodTotal, i);
  }

  ghost predicate DistinctClasses(targets: seq<(string, int)>) {
    forall i, j :: 0 <= i < j < |targets| ==> targets[i].0 != targets[j].0
  }

  lemma DefectClassesDistinct()
    ensures DistinctClasses(DEFECT_TARGETS)
  {
    assert DEFECT_TARGETS[0].0[13] != DEFECT_TARGETS[1].0[13] && DEFECT_TARGETS[0].0[13] != DEFECT_TARGETS[2].0[13];
    assert DEFECT_TARGETS[1].0[13] != DEFECT_TARGETS[2].0[13];
  }

  lemma SortedTargetsDistinct(rows: seq<PlanRow>, goodTotal: nat)
    ensures DistinctClasses(Sorted(ClassTargets(rows, goodTotal), ByClass))
  {
    var targets := ClassTargets(rows, goodTotal);
    var sorted := Sorted(targets, ByClass);
    SortedPermutes(targets, ByClass);
    CountGoodWellFormed(rows);
    forall i, j | 0 <= i < j < |sorted| ensures sorted[i].0 != sorted[j].0 {
      DistinctKeysPermuted(targets, sorted, i, j);
    }
  }

  lemma JoinedPicksDiffer(defects: seq<(string, int)>, goods: seq<(string, int)>)
    requires DistinctClasses(defects) && DistinctClasses(goods)
    ensures DifferentBuckets(PicksOf(defects, true) + PicksOf(goods, false))
  {
    var picks := PicksOf(defects, true) + PicksOf(goods, false);
    forall i, j | 0 <= i < j < |picks|
      ensures (picks[i].klass, picks[i].defective) != (picks[j].klass, picks[j].defective) {
      if j < |defects| {
        assert defects[i].0 != defects[j].0;
      } else if i >= |defects| {
        assert goods[i - |defects|].0 != goods[j - |defects|].0;
      } else {
        assert picks[i].defective && !picks[j].defective;
      }
    }
  }

  lemma PicksDiffer(rows: seq<PlanRow>, goodTotal: nat)
    ensures DifferentBuckets(Picks(rows, goodTotal))
  {
    DefectClassesDistinct();
    SortedTargetsDistinct(rows, goodTotal);
    JoinedPicksDiffer(DEFECT_TARGETS, Sorted(ClassTargets(rows, goodTotal), ByClass));
  }

  lemma GoodTargetsAddUp(rows: seq<PlanRow>, goodTotal: nat)
    requires 0 < CountIf(rows, IsGood) && goodTotal <= CountIf(rows, IsGood)
    ensures GoodTargetSum(Picks(rows, goodTotal)) == goodTotal
  {
    var targets := ClassTargets(rows, goodTotal);
    var sorted := Sorted(targets, ByClass);
    ClassTargetsProperties(rows, goodTotal);
    SortedPermutes(targets, ByClass);
    SecondSumPermutation(sorted, targets);
    GoodTargetSumAppend(PicksOf(DEFECT_TARGETS, true), PicksOf(sorted, false));
    PickSums(DEFECT_TARGETS, true);
    PickSums(sorted, false);
  }

  lemma TargetMet(rows: seq<PlanRow>, goodTotal: nat, t: (string, int))
    requires 0 < CountIf(rows, IsGood) && goodTotal <= CountIf(rows, IsGood)
    requires t in Sorted(ClassTargets(rows, goodTotal), ByClass)
    ensures Taken(rows, Pick(t.0, false, t.1)) == t.1
  {
    var targets := ClassTargets(rows, goodTotal);
    ClassTargetsProperties(rows, goodTotal);
    SortedPermutes(targets, ByClass);
    assert t in multiset(Sorted(targets, ByClass));
    assert t in targets;
  }

  lemma GoodPicksMet(rows: seq<PlanRow>, goodTotal: nat)
    requires 0 < CountIf(rows, IsGood) && goodTotal <= CountIf(rows, IsGood)
    ensures var picks := Picks(rows, goodTotal);
      forall i :: 0 <= i < |picks| && !picks[i].defective ==> Taken(rows, picks[i]) == picks[i].target
  {
    var sorted := Sorted(ClassTargets(rows, goodTotal), ByClass);
    var defects, goods := PicksOf(DEFECT_TARGETS, true), PicksOf(sorted, false);
    assert Picks(rows, goodTotal) == defects + goods;
    forall j | 0 <= j < |goods| ensures Taken(rows, goods[j]) == goods[j].target {
      assert sorted[j] in sorted;
      TargetMet(rows, goodTotal, sorted[j]);
    }
    assert forall i :: 0 <= i < |defects| ==> (defects + goods)[i] == defects[i] && defects[i].defective;
    assert forall i :: |defects| <= i < |defects + goods| ==> (defects + goods)[i] == goods[i - |defects|];
  }

  /** The holdout has the asked number of defects of a listed class, or all there are. */
  ghost predicate ListedDefectsMet(rows: seq<PlanRow>, goodTotal: nat, i: nat)
    requires i < |DEFECT_TARGETS|
  {
    var inClass := InBucketOf(DEFECT_TARGETS[i].0, true);
    var available := CountIf(rows, inClass);
    CountIf(Holdout(rows, goodTotal), inClass) == if available <= DEFECT_TARGETS[i].1 then available
      else DEFECT_TARGETS[i].1
  }

  lemma HoldoutDefects(rows: seq<PlanRow>, goodTotal: nat, i: nat)
    requires i < |DEFECT_TARGETS|
    ensures ListedDefectsMet(rows, goodTotal, i)
  {
    var picks := Picks(rows, goodTotal);
    var collected := Collect(rows, picks);
    PicksDiffer(rows, goodTotal);
    SortedPermutes(collected, ByLabelClassTime);
    CollectBucketCount(rows, picks, i);
    assert picks[i] == Pick(DEFECT_TARGETS[i].0, true, DEFECT_TARGETS[i].1);
    CountIfPermutation(Holdout(rows, goodTotal), collected, InBucketOf(picks[i].klass, picks[i].defective));
  }

  /** The holdout has exactly the requested number of good rows, min(target, available) defects of each
      listed class, no other defects, and no row more often than the replay. */
  lemma HoldoutContents(rows: seq<PlanRow>, goodTotal: nat)
    requires 0 < CountIf(rows, IsGood) && goodTotal <= CountIf(rows, IsGood)
    ensures CountIf(Holdout(rows, goodTotal), IsGood) == goodTotal
    ensures forall i :: 0 <= i < |DEFECT_TARGETS| ==> ListedDefectsMet(rows, goodTotal, i)
    ensures multiset(Holdout(rows, goodTotal)) <= multiset(rows)
  {
    var picks := Picks(rows, goodTotal);
    var collected := Collect(rows, picks);
    PicksDiffer(rows, goodTotal);
    SortedPermutes(collected, ByLabelClassTime);
    GoodPicksMet(rows, goodTotal);
    GoodTargetsAddUp(rows, goodTotal);
    CollectGoodCount(rows, picks);
    CountIfPermutation(Holdout(rows, goodTotal), collected, IsGood);
    forall i | 0 <= i < |DEFECT_TARGETS| ensures ListedDefectsMet(rows, goodTotal, i) {
      HoldoutDefects(rows, goodTotal, i);
    }
    forall r ensures multiset(Holdout(rows, goodTotal))[r] <= multiset(rows)[r] { CollectOnce(rows, picks, r); }
  }

  lemma ByLabelClassTimeIsOrder()
    ensures TotalPreorder(ByLabelClassTime)
  {
    PairLeIsOrder();
    forall a, b ensures ByLabelClassTime(a, b) || ByLabelClassTime(b, a) {}
    forall a, b, c | ByLabelClassTime(a, b) && ByLabelClassTime(b, c) ensures ByLabelClassTime(a, c) {
      ByLabelClassTimeTransitive(a, b, c);
    }
  }

  lemma ByLabelClassTimeTransitive(a: PlanRow, b: PlanRow, c: PlanRow)
    requires ByLabelClassTime(a, b) && ByLabelClassTime(b, c)
    ensures ByLabelClassTime(a, c)
  {
    PairLeIsOrder();
    if a.isDefective == b.isDefective == c.isDefective {
      var x, y, z := (a.sourceClass, a.sourceTimestamp), (b.sourceClass, b.sourceTimestamp),
        (c.sourceClass, c.sourceTimestamp);
      assert PairLe(x, y) && PairLe(y, z) ==> PairLe(x, z);
    }
  }

  /** The holdout lists good rows before defects, classes in name order, and the rows of a class by timestamp. */
  lemma HoldoutOrder(rows: seq<PlanRow>, goodTotal: nat, i: nat, j: nat)
    requires i < j < |Holdout(rows, goodTotal)|
    ensures var a, b := Holdout(rows, goodTotal)[i], Holdout(rows, goodTotal)[j];
      && (a.isDefective ==> b.isDefective)
      && (a.isDefective == b.isDefective ==> StrLe(a.sourceClass, b.sourceClass))
      && (a.isDefective == b.isDefective && a.sourceClass == b.sourceClass
          ==> StrLe(a.sourceTimestamp, b.sourceTimestamp))
  {
    ByLabelClassTimeIsOrder();
    StrLeIsOrder();
    var collected := Collect(rows, Picks(rows, goodTotal));
    SortedOrdered(collected, ByLabelClassTime);
    assert ByLabelClassTime(Holdout(rows, goodTotal)[i], Holdout(rows, goodTotal)[j]);
  }

  /** Defects of a class that has no target are never held out. */
  lemma OnlyListedDefects(rows: seq<PlanRow>, goodTotal: nat, r: PlanRow)
    requires r in Holdout(rows, goodTotal) && r.isDefective
    ensures exists i :: 0 <= i < |DEFECT_TARGETS| && r.sourceClass == DEFECT_TARGETS[i].0
  {
    var picks := Picks(rows, goodTotal);
    PicksDiffer(rows, goodTotal);
    SortedPermutes(Collect(rows, picks), ByLabelClassTime);
    assert r in multiset(Holdout(rows, goodTotal));
    assert r in multiset(Collect(rows, picks));
    CollectOnce(rows, picks, r);
    var i :| 0 <= i < |picks| && InBucket(r, picks[i].klass, picks[i].defective);
    assert i < |DEFECT_TARGETS|;
  }

  // ---------------------------------------------------------------------------- the training replay

  /** A training row: the replay row with its new sequence number. */
  datatype TrainRow = TrainRow(row: PlanRow, sequenceNumber: nat)

  function IdsOf(rows: seq<PlanRow>): set<string> {
    set r | r in rows :: r.sourceEventId
  }

  function Kept(rows: seq<PlanRow>, held: set<string>): seq<PlanRow> {
    Filter(rows, KeptIn(held))
  }

  ghost predicate DistinctIds(rows: seq<PlanRow>) {
    forall i, j :: 0 <= i < j < |rows| ==> rows[i].sourceEventId != rows[j].sourceEventId
  }

  /** With distinct source ids, training rows and holdout together are the replay, and share no row. */
  lemma SplitPartitionsReplay(rows: seq<PlanRow>, holdout: seq<PlanRow>)
    requires DistinctIds(rows) && multiset(holdout) <= multiset(rows)
    ensures multiset(Kept(rows, IdsOf(holdout))) + multiset(holdout) == multiset(rows)
    ensures forall r :: r in Kept(rows, IdsOf(holdout)) ==> r !in holdout
  {
    var held := IdsOf(holdout);
    var keep := KeptIn(held);
    forall r ensures multiset(Kept(rows, held))[r] + multiset(holdout)[r] == multiset(rows)[r] {
      FilterPermutation(rows, keep, r);
      assert Distinct(rows);
      DistinctMultiplicity(rows, r);
      if r in rows && r.sourceEventId in held {
        var h :| h in holdout && h.sourceEventId == r.sourceEventId;
        assert h in multiset(holdout);
        assert h in multiset(rows);
        assert h == r;
        assert multiset(holdout)[r] == 1;
      } else if r in holdout {
        assert r in multiset(rows);
      } else {
        assert r !in multiset(holdout);
      }
    }
  }

  lemma {:induction false} FilterKeepsOrder<T>(xs: seq<T>, keep: T -> bool, i: nat, j: nat)
    requires i < j < |Filter(xs, keep)|
    ensures exists a, b :: 0 <= a < b < |xs| && xs[a] == Filter(xs, keep)[i] && xs[b] == Filter(xs, keep)[j]
  {
    var tail := Filter(xs[1..], keep);
    if keep(xs[0]) {
      if i > 0 {
        FilterKeepsOrder(xs[1..], keep, i - 1, j - 1);
        var a, b :| 0 <= a < b < |xs[1..]| && xs[1..][a] == tail[i - 1] && xs[1..][b] == tail[j - 1];
        assert xs[a + 1] == Filter(xs, keep)[i] && xs[b + 1] == Filter(xs, keep)[j];
      } else {
        assert tail[j - 1] in tail;
        var b :| 0 <= b < |xs[1..]| && xs[1..][b] == tail[j - 1];
        assert xs[0] == Filter(xs, keep)[i] && xs[b + 1] == Filter(xs, keep)[j];
      }
    } else {
      FilterKeepsOrder(xs[1..], keep, i, j);
      var a, b :| 0 <= a < b < |xs[1..]| && xs[1..][a] == tail[i] && xs[1..][b] == tail[j];
      assert xs[a + 1] == Filter(xs, keep)[i] && xs[b + 1] == Filter(xs, keep)[j];
    }
  }

  /** `by_class_label.get((klass, defective), [])` */
  function Grouped(groups: map<(string, bool), seq<PlanRow>>, key: (string, bool)): seq<PlanRow> {
    if key in groups then groups[key] else []
  }

  lemma BucketGrows(rows: seq<PlanRow>, i: nat, key: (string, bool))
    requires i < |rows|
    ensures Bucket(rows[..i + 1], key.0, key.1)
         == Bucket(rows[..i], key.0, key.1) + if InBucket(rows[i], key.0, key.1) then [rows[i]] else []
  {
    assert rows[..i + 1] == rows[..i] + [rows[i]];
    FilterAppend(rows[..i], [rows[i]], InBucketOf(key.0, key.1));
  }

  method GroupByClassLabel(rows: seq<PlanRow>) returns (groups: map<(string, bool), seq<PlanRow>>)
    ensures forall key :: Grouped(groups, key) == Bucket(rows, key.0, key.1)
  {
    groups := map[];
    for i := 0 to |rows|
      invariant forall key :: Grouped(groups, key) == Bucket(rows[..i], key.0, key.1)
    {
      var own := (rows[i].sourceClass, rows[i].isDefective);
      var next := groups[own := Grouped(groups, own) + [rows[i]]];
      forall key ensures Grouped(next, key) == Bucket(rows[..i + 1], key.0, key.1) { BucketGrows(rows, i, key); }
      groups := next;
    }
    assert rows[..|rows|] == rows;
  }

  lemma CollectCons(rows: seq<PlanRow>, pick: Pick, rest: seq<Pick>)
    ensures Collect(rows, [pick] + rest) == PickedBy(rows, pick) + Collect(rows, rest)
  {
    assert ([pick] + rest)[1..] == rest;
  }

  lemma {:induction false} CollectSnoc(rows: seq<PlanRow>, picks: seq<Pick>, pick: Pick)
    ensures Collect(rows, picks + [pick]) == Collect(rows, picks) + PickedBy(rows, pick)
  {
    if picks == [] {
      assert picks + [pick] == [pick] + [];
      CollectCons(rows, pick, []);
    } else {
      var first, rest := picks[0], picks[1..];
      calc {
        Collect(rows, picks + [pick]);
        { assert picks + [pick] == [first] + (rest + [pick]); CollectCons(rows, first, rest + [pick]); }
        PickedBy(rows, first) + Collect(rows, rest + [pick]);
        { CollectSnoc(rows, rest, pick); }
        PickedBy(rows, first) + (Collect(rows, rest) + PickedBy(rows, pick));
        (PickedBy(rows, first) + Collect(rows, rest)) + PickedBy(rows, pick);
        { assert picks == [first] + rest; CollectCons(rows, first, rest); }
        Collect(rows, picks) + PickedBy(rows, pick);
      }
    }
  }

  method CollectPicks(ghost rows: seq<PlanRow>, groups: map<(string, bool), seq<PlanRow>>, picks: seq<Pick>)
      returns (collected: seq<PlanRow>)
    requires forall key :: Grouped(groups, key) == Bucket(rows, key.0, key.1)
    ensures collected == Collect(rows, picks)
  {
    collected := [];
    for i := 0 to |picks|
      invariant collected == Collect(rows, picks[..i])
    {
      assert picks[..i + 1] == picks[..i] + [picks[i]];
      CollectSnoc(rows, picks[..i], picks[i]);
      var taken := SpreadSelect(Grouped(groups, (picks[i].klass, picks[i].defective)), picks[i].target);
      collected := collected + taken;
    }
    assert picks[..|picks|] == picks;
  }

  method SelectHoldoutRows(rows: seq<PlanRow>, goodTotal: nat) returns (holdout: seq<PlanRow>)
    ensures holdout == Holdout(rows, goodTotal)
  {
    var byClassLabel := GroupByClassLabel(rows);
    var goodTargets := GoodTargets(rows, goodTotal);
    var picks := PicksOf(DEFECT_TARGETS, true) + PicksOf(Sorted(goodTargets, ByClass), false);
    var collected := CollectPicks(rows, byClassLabel, picks);
    holdout := Sorted(collected, ByLabelClassTime);
  }

  function KeptIn(held: set<string>): PlanRow -> bool {
    (r: PlanRow) => r.sourceEventId !in held
  }

  /** Training rows in replay order, numbered from 1. */
  ghost predicate Numbered(train: seq<TrainRow>, rows: seq<PlanRow>) {
    |train| == |rows| && forall i :: 0 <= i < |train| ==> train[i] == TrainRow(rows[i], i + 1)
  }

  lemma KeptNext(rows: seq<PlanRow>, held: set<string>, i: nat)
    requires i < |rows|
    ensures Kept(rows[..i + 1], held) == Kept(rows[..i], held) + if rows[i].sourceEventId !in held then [rows[i]]
      else []
  {
    assert rows[..i + 1] == rows[..i] + [rows[i]];
    FilterAppend(rows[..i], [rows[i]], KeptIn(held));
  }

  method TrainRows(rows: seq<PlanRow>, held: set<string>) returns (train: seq<TrainRow>)
    ensures Numbered(train, Kept(rows, held))
  {
    train := [];
    for i := 0 to |rows|
      invariant Numbered(train, Kept(rows[..i], held))
    {
      KeptNext(rows, held, i);
      if rows[i].sourceEventId !in held { train := train + [TrainRow(rows[i], |train| + 1)]; }
    }
    assert rows[..|rows|] == rows;
  }

  /** The whole split: what `build_split` writes as training replay and as gate panel. */
  method BuildSplit(rows: seq<PlanRow>, goodTotal: nat) returns (train: seq<TrainRow>, holdout: seq<PlanRow>)
    ensures holdout == Holdout(rows, goodTotal)
    ensures Numbered(train, Kept(rows, IdsOf(holdout)))
    ensures DistinctIds(rows) && 0 < CountIf(rows, IsGood) && goodTotal <= CountIf(rows, IsGood) ==>
      multiset(Kept(rows, IdsOf(holdout))) + multiset(holdout) == multiset(rows)
  {
    holdout := SelectHoldoutRows(rows, goodTotal);
    train := TrainRows(rows, IdsOf(holdout));
    if DistinctIds(rows) && 0 < CountIf(rows, IsGood) && goodTotal <= CountIf(rows, IsGood) {
      HoldoutContents(rows, goodTotal);
      SplitPartitionsReplay(rows, holdout);
    }
  }
}

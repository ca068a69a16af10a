/** Training anchors and evaluation rows written for a drift correction
    (`_write_balanced_context_manifests` in scripts/run_drift_observation_replay.py). */
module CorrectionManifests {
  import opened ReplayEvents
  import opened Sorting
  import opened Groups
  import opened DriftRows
  import opened DriftObservation
  import opened Apportionment

  // ---------------------------------------------------------------------------- buckets

  function BucketKey(row: DriftRow): string {
    if row.viewPairs != "" then row.viewPairs else if row.sourceClass != "" then row.sourceClass else "piece_b"
  }

  type Buckets = Groups<string, DriftRow>

  function RowsByBucket(rows: seq<DriftRow>): Buckets { GroupBy(rows, BucketKey) }

  function BucketNames(buckets: Buckets): seq<string> {
    seq(|buckets|, i requires 0 <= i < |buckets| => buckets[i].0)
  }

  const PREFERRED := ["Casting_class1:1_2", "Casting_class1:1_3", "Casting_class1:2_3"]

  function AmongNames(names: seq<string>): string -> bool { name => name in names }

  function Outside(names: seq<string>): string -> bool { name => name !in names }

  /** The preferred names that occur, then the other names in order; at most three. */
  function OrderedNames(preferredAll: seq<string>, names: seq<string>): seq<string> {
    var preferred := Filter(preferredAll, AmongNames(names));
    Take(preferred + Filter(Sorted(names, StrLe), Outside(preferred)), 3)
  }

  /** `_ordered_stable_buckets` */
  function OrderedBuckets(buckets: Buckets): seq<string> {
    OrderedNames(PREFERRED, BucketNames(buckets))
  }

  lemma {:induction false} FilterDistinct<T>(xs: seq<T>, keep: T -> bool)
    requires Distinct(xs)
    ensures Distinct(Filter(xs, keep)) && |Filter(xs, keep)| <= |xs|
  {
    if xs != [] {
      HeadNotInTail(xs);
      assert forall j, k :: 0 <= j < k < |xs[1..]| ==> xs[1..][j] == xs[j + 1] && xs[1..][k] == xs[k + 1];
      FilterDistinct(xs[1..], keep);
      assert forall x :: x in Filter(xs[1..], keep) ==> x in xs[1..];
    }
  }

  lemma PreferredDistinct()
    ensures Distinct(PREFERRED)
  {
    assert PREFERRED[0][15] != PREFERRED[2][15] && PREFERRED[1][15] != PREFERRED[2][15];
    assert PREFERRED[0][17] != PREFERRED[1][17];
  }

  lemma JoinDistinct<T>(xs: seq<T>, ys: seq<T>, n: nat)
    requires Distinct(xs) && Distinct(ys) && forall y :: y in ys ==> y !in xs
    ensures Distinct(Take(xs + ys, n))
  {
    var both := xs + ys;
    forall j, k | 0 <= j < k < |both| ensures both[j] != both[k] {
      if j < |xs| <= k { assert both[k] in ys; }
    }
    assert forall k :: 0 <= k < |Take(both, n)| ==> Take(both, n)[k] == both[k];
  }

  lemma OrderedNamesDistinct(preferredAll: seq<string>, names: seq<string>)
    requires Distinct(preferredAll) && Distinct(names)
    ensures Distinct(OrderedNames(preferredAll, names)) && |OrderedNames(preferredAll, names)| <= 3
    ensures forall b :: b in OrderedNames(preferredAll, names) ==> b in names
  {
    var preferred, others := Filter(preferredAll, AmongNames(names)), Sorted(names, StrLe);
    SortedPermutes(names, StrLe);
    PermutationDistinct(names, others);
    FilterDistinct(preferredAll, AmongNames(names));
    FilterDistinct(others, Outside(preferred));
    var rest := Filter(others, Outside(preferred));
    forall b | b in rest ensures b in names && b !in preferred { assert b in multiset(others); }
    JoinDistinct(preferred, rest, 3);
    forall b | b in Take(preferred + rest, 3) ensures b in names { assert b in preferred || b in rest; }
  }

  lemma PreferredAreChosen(preferredAll: seq<string>, names: seq<string>, b: string)
    requires Distinct(preferredAll) && |preferredAll| <= 3 && b in preferredAll && b in names
    ensures b in OrderedNames(preferredAll, names)
  {
    var preferred := Filter(preferredAll, AmongNames(names));
    FilterDistinct(preferredAll, AmongNames(names));
    FilterMember(preferredAll, AmongNames(names), b);
    var k :| 0 <= k < |preferred| && preferred[k] == b;
    assert OrderedNames(preferredAll, names)[k] == b;
  }

  /** Three buckets at most, each existing and used once; every preferred bucket that has rows is among them. */
  lemma BucketChoice(rows: seq<DriftRow>)
    ensures var names := BucketNames(RowsByBucket(rows));
      var chosen := OrderedBuckets(RowsByBucket(rows));
      && Distinct(chosen) && |chosen| <= 3
      && (forall b :: b in chosen ==> b in names)
      && (forall b :: b in PREFERRED && b in names ==> b in chosen)
  {
    var names := BucketNames(RowsByBucket(rows));
    GroupByValid(rows, BucketKey);
    PreferredDistinct();
    OrderedNamesDistinct(PREFERRED, names);
    forall b | b in PREFERRED && b in names ensures b in OrderedNames(PREFERRED, names) {
      PreferredAreChosen(PREFERRED, names, b);
    }
  }

  // ---------------------------------------------------------------------------- anchors and evaluation rows

  datatype Manifests = Manifests(anchors: seq<DriftRow>, eval: seq<DriftRow>, anchorCounts: seq<nat>,
                                 evalCounts: seq<nat>)

  /** Training anchors of a bucket: its first `trainCount` good rows. */
  function AnchorsOf(stableRows: seq<DriftRow>, trainCount: nat): string -> seq<DriftRow> {
    bucket => Take(Lookup(RowsByBucket(Filter(stableRows, IsGoodRow)), bucket), trainCount)
  }

  /** Evaluation rows of a bucket: those after as many rows as it gave anchors. */
  function EvalOf(stableRows: seq<DriftRow>, trainCount: nat, evalCount: nat): string -> seq<DriftRow> {
    bucket => Slice(Lookup(RowsByBucket(stableRows), bucket), |AnchorsOf(stableRows, trainCount)(bucket)|, evalCount)
  }

  function Chained<T>(names: seq<string>, part: string -> seq<T>): seq<T> {
    if names == [] then [] else Chained(names[..|names| - 1], part) + part(names[|names| - 1])
  }

  function Lengths<T>(names: seq<string>, part: string -> seq<T>): seq<nat> {
    if names == [] then [] else Lengths(names[..|names| - 1], part) + [|part(names[|names| - 1])|]
  }

  /** What the manifests hold; the evaluation manifest starts with the context rows themselves. */
  function ManifestsOf(contextRows: seq<DriftRow>, stableRows: seq<DriftRow>): Manifests {
    var names := OrderedBuckets(RowsByBucket(stableRows));
    var train := |Filter(contextRows, IsGoodRow)|;
    var anchors, eval := AnchorsOf(stableRows, train), EvalOf(stableRows, train, |contextRows|);
    Manifests(Chained(names, anchors), contextRows + Chained(names, eval), Lengths(names, anchors),
              Lengths(names, eval))
  }

  lemma {:induction false} LengthsSum<T>(names: seq<string>, part: string -> seq<T>, limit: nat)
    requires forall b :: |part(b)| <= limit
    ensures Sum(Lengths(names, part)) == |Chained(names, part)|
    ensures forall n :: n in Lengths(names, part) ==> n <= limit
  {
    if names != [] {
      LengthsSum(names[..|names| - 1], part, limit);
      SumSnoc(Lengths(names[..|names| - 1], part), |part(names[|names| - 1])|);
    }
  }

  lemma AnchorLimit(stableRows: seq<DriftRow>, trainCount: nat, bucket: string)
    ensures |AnchorsOf(stableRows, trainCount)(bucket)| <= trainCount
  {
  }

  lemma EvalLimit(stableRows: seq<DriftRow>, trainCount: nat, evalCount: nat, bucket: string)
    ensures |EvalOf(stableRows, trainCount, evalCount)(bucket)| <= evalCount
  {
    assert |Slice(Lookup(RowsByBucket(stableRows), bucket), |AnchorsOf(stableRows, trainCount)(bucket)|, evalCount)|
      <= evalCount;
  }

  /** The reported per-bucket counts add up to the manifests, and stay within the limits asked for. */
  lemma ReportedCounts(contextRows: seq<DriftRow>, stableRows: seq<DriftRow>)
    ensures var m := ManifestsOf(contextRows, stableRows);
      && Sum(m.anchorCounts) == |m.anchors|
      && |contextRows| + Sum(m.evalCounts) == |m.eval|
      && (forall n :: n in m.anchorCounts ==> n <= |Filter(contextRows, IsGoodRow)|)
      && (forall n :: n in m.evalCounts ==> n <= |contextRows|)
  {
    var names := OrderedBuckets(RowsByBucket(stableRows));
    var train := |Filter(contextRows, IsGoodRow)|;
    var anchors, eval := AnchorsOf(stableRows, train), EvalOf(stableRows, train, |contextRows|);
    forall b ensures |anchors(b)| <= train { AnchorLimit(stableRows, train, b); }
    forall b ensures |eval(b)| <= |contextRows| { EvalLimit(stableRows, train, |contextRows|, b); }
    LengthsSum(names, anchors, train);
    LengthsSum(names, eval, |contextRows|);
  }

  /** Rows from this position on are these. */
  predicate HasAt<T(==)>(rows: seq<T>, at: int, block: seq<T>) {
    0 <= at && at + |block| <= |rows| && rows[at..at + |block|] == block
  }

  lemma SumFront(xs: seq<nat>, x: nat, i: nat)
    requires i <= |xs|
    ensures (xs + [x])[..i] == xs[..i]
  {
  }

  lemma {:induction false} ChainedBlocks<T>(names: seq<string>, part: string -> seq<T>, i: nat)
    requires i < |names|
    ensures |Lengths(names, part)| == |names| && Lengths(names, part)[i] == |part(names[i])|
    ensures HasAt(Chained(names, part), Sum(Lengths(names, part)[..i]), part(names[i]))
    ensures Sum(Lengths(names, part)) == |Chained(names, part)|
    decreases |names|
  {
    var n := |names| - 1;
    var front, last := Lengths(names[..n], part), |part(names[n])|;
    SumSnoc(front, last);
    if i < n {
      ChainedBlocks(names[..n], part, i);
      SumFront(front, last, i);
    } else {
      if n > 0 { ChainedBlocks(names[..n], part, n - 1); }
      SumFront(front, last, n);
      assert front[..n] == front;
    }
  }

  /** Block i of these rows, cut by these counts, after `skip` rows. */
  ghost predicate BlockIn(rows: seq<DriftRow>, skip: nat, counts: seq<nat>, i: nat, block: seq<DriftRow>) {
    i < |counts| && counts[i] == |block| && HasAt(rows, skip + Sum(counts[..i]), block)
  }

  /** Block i of the manifests: these anchors, and these evaluation rows behind the context rows. */
  ghost predicate IsBlock(m: Manifests, contextRows: seq<DriftRow>, i: nat, anchors: seq<DriftRow>,
                          eval: seq<DriftRow>) {
    && BlockIn(m.anchors, 0, m.anchorCounts, i, anchors)
    && BlockIn(m.eval, |contextRows|, m.evalCounts, i, eval) && HasAt(m.eval, 0, contextRows)
  }

  lemma HasAtBehind<T>(context: seq<T>, rows: seq<T>, at: int, block: seq<T>)
    requires HasAt(rows, at, block)
    ensures HasAt(context + rows, |context| + at, block) && HasAt(context + rows, 0, context)
  {
    assert (context + rows)[|context| + at..|context| + at + |block|] == rows[at..at + |block|];
  }

  lemma BlockBehind(context: seq<DriftRow>, rows: seq<DriftRow>, counts: seq<nat>, i: nat, block: seq<DriftRow>)
    requires BlockIn(rows, 0, counts, i, block)
    ensures BlockIn(context + rows, |context|, counts, i, block) && HasAt(context + rows, 0, context)
  {
    HasAtBehind(context, rows, Sum(counts[..i]), block);
  }

  lemma BlocksOf(m: Manifests, contextRows: seq<DriftRow>, names: seq<string>, anchors: string -> seq<DriftRow>,
                 eval: string -> seq<DriftRow>, i: nat)
    requires i < |names|
    requires m == Manifests(Chained(names, anchors), contextRows + Chained(names, eval), Lengths(names, anchors),
                            Lengths(names, eval))
    ensures IsBlock(m, contextRows, i, anchors(names[i]), eval(names[i]))
  {
    ChainedBlocks(names, anchors, i);
    ChainedBlocks(names, eval, i);
    assert BlockIn(Chained(names, eval), 0, m.evalCounts, i, eval(names[i]));
    BlockBehind(contextRows, Chained(names, eval), m.evalCounts, i, eval(names[i]));
  }

  /** The i-th bucket used fills one block of each manifest, after those of the buckets before it and, in the evaluation
      manifest, after the context rows; the reported counts are the lengths of the blocks. */
  lemma ManifestBlocks(contextRows: seq<DriftRow>, stableRows: seq<DriftRow>, i: nat)
    requires i < |OrderedBuckets(RowsByBucket(stableRows))|
    ensures var bucket, train := OrderedBuckets(RowsByBucket(stableRows))[i], CountIf(contextRows, IsGoodRow);
      IsBlock(ManifestsOf(contextRows, stableRows), contextRows, i, AnchorsOf(stableRows, train)(bucket),
              EvalOf(stableRows, train, |contextRows|)(bucket))
  {
    var names, train := OrderedBuckets(RowsByBucket(stableRows)), |Filter(contextRows, IsGoodRow)|;
    FilterCounts(contextRows, IsGoodRow);
    BlocksOf(ManifestsOf(contextRows, stableRows), contextRows, names, AnchorsOf(stableRows, train),
             EvalOf(stableRows, train, |contextRows|), i);
  }

  lemma {:induction false} FilterCounts<T>(xs: seq<T>, keep: T -> bool)
    ensures |Filter(xs, keep)| == CountIf(xs, keep)
  {
    if xs != [] { FilterCounts(xs[1..], keep); }
  }

  // ---------------------------------------------------------------------------- positions

  /** Positions of the elements that meet a condition, in order. */
  function Positions<T>(xs: seq<T>, good: T -> bool): (r: seq<nat>)
    ensures forall i :: 0 <= i < |r| ==> r[i] < |xs|
  {
    if xs == [] then []
    else Positions(xs[..|xs| - 1], good) + if good(xs[|xs| - 1]) then [|xs| - 1] else []
  }

  lemma {:induction false} PositionsExact<T>(xs: seq<T>, good: T -> bool)
    ensures |Positions(xs, good)| == |Filter(xs, good)|
    ensures forall i :: 0 <= i < |Positions(xs, good)| ==> Filter(xs, good)[i] == xs[Positions(xs, good)[i]]
    ensures forall p :: p in Positions(xs, good) <==> 0 <= p < |xs| && good(xs[p])
  {
    if xs != [] {
      var front, last := xs[..|xs| - 1], xs[|xs| - 1];
      PositionsExact(front, good);
      assert xs == front + [last];
      FilterSnoc(front, last, good);
    }
  }

  lemma {:induction false} PositionsIncrease<T>(xs: seq<T>, good: T -> bool)
    ensures forall i, j :: 0 <= i < j < |Positions(xs, good)| ==> Positions(xs, good)[i] < Positions(xs, good)[j]
    ensures forall i :: 0 <= i < |Positions(xs, good)| ==> i <= Positions(xs, good)[i]
  {
    if xs != [] {
      PositionsIncrease(xs[..|xs| - 1], good);
      PositionsFewer(xs[..|xs| - 1], good);
    }
  }

  lemma {:induction false} PositionsFewer<T>(xs: seq<T>, good: T -> bool)
    ensures |Positions(xs, good)| <= |xs|
  {
    if xs != [] { PositionsFewer(xs[..|xs| - 1], good); }
  }

  /** The matches of a prefix come first, the later ones are beyond it. */
  lemma {:induction false} PositionsOfPrefix<T>(xs: seq<T>, good: T -> bool, n: nat)
    requires n <= |xs|
    ensures |Positions(xs[..n], good)| <= |Positions(xs, good)|
    ensures forall i :: 0 <= i < |Positions(xs, good)| ==>
      (Positions(xs, good)[i] < n <==> i < |Positions(xs[..n], good)|)
    decreases |xs|
  {
    if n < |xs| {
      var front := xs[..|xs| - 1];
      assert front[..n] == xs[..n];
      PositionsOfPrefix(front, good, n);
    } else {
      assert xs[..n] == xs;
    }
  }

  lemma {:induction false} AllMatchIff<T>(xs: seq<T>, good: T -> bool)
    ensures |Positions(xs, good)| == |xs| <==> forall i :: 0 <= i < |xs| ==> good(xs[i])
  {
    if xs != [] {
      AllMatchIff(xs[..|xs| - 1], good);
      PositionsFewer(xs[..|xs| - 1], good);
    }
  }

  /** Position p is in the slice of `evalCount` positions that follows the first `used`. */
  predicate InSlice(p: int, used: nat, evalCount: nat, length: nat) {
    used <= p < length && p < used + evalCount
  }

  ghost predicate GoodStart<T>(xs: seq<T>, good: T -> bool, n: nat) {
    n <= |xs| && forall i :: 0 <= i < n ==> good(xs[i])
  }

  ghost predicate NoGoodInSlice<T>(xs: seq<T>, good: T -> bool, used: nat, evalCount: nat) {
    forall p :: InSlice(p, used, evalCount, |xs|) ==> !good(xs[p])
  }

  /** None of the first `used` matches lies in the slice after the first `used` elements. */
  ghost predicate Apart<T>(xs: seq<T>, good: T -> bool, used: nat, evalCount: nat)
    requires used <= |Positions(xs, good)|
  {
    forall i :: 0 <= i < used ==> !InSlice(Positions(xs, good)[i], used, evalCount, |xs|)
  }

  lemma GoodStartIff<T>(xs: seq<T>, good: T -> bool, n: nat)
    requires n <= |xs|
    ensures |Positions(xs[..n], good)| <= n
    ensures GoodStart(xs, good, n) <==> |Positions(xs[..n], good)| == n
  {
    AllMatchIff(xs[..n], good);
    PositionsFewer(xs[..n], good);
    assert forall i :: 0 <= i < n ==> xs[..n][i] == xs[i];
  }

  lemma ApartWhenGoodStart<T>(xs: seq<T>, good: T -> bool, used: nat, evalCount: nat)
    requires used <= |Positions(xs, good)| && GoodStart(xs, good, used)
    ensures Apart(xs, good, used, evalCount)
  {
    GoodStartIff(xs, good, used);
    PositionsOfPrefix(xs, good, used);
  }

  lemma ApartWhenNoneEvaluated<T>(xs: seq<T>, good: T -> bool, used: nat, evalCount: nat)
    requires used <= |Positions(xs, good)| && NoGoodInSlice(xs, good, used, evalCount)
    ensures Apart(xs, good, used, evalCount)
  {
    PositionsExact(xs, good);
    forall i | 0 <= i < used ensures !InSlice(Positions(xs, good)[i], used, evalCount, |xs|) {
      assert Positions(xs, good)[i] in Positions(xs, good);
    }
  }

  /** Otherwise the first match from position `used` on is one of the first `used` matches, and lies in the slice. */
  lemma OverlapOtherwise<T>(xs: seq<T>, good: T -> bool, used: nat, evalCount: nat, p: nat)
    requires used <= |Positions(xs, good)| && used <= |xs| && !GoodStart(xs, good, used)
    requires InSlice(p, used, evalCount, |xs|) && good(xs[p])
    ensures !Apart(xs, good, used, evalCount)
  {
    var all := Positions(xs, good);
    GoodStartIff(xs, good, used);
    PositionsOfPrefix(xs, good, used);
    PositionsExact(xs, good);
    PositionsIncrease(xs, good);
    var c := |Positions(xs[..used], good)|;
    assert p in all;
    var i :| 0 <= i < |all| && all[i] == p;
    assert c == i || all[c] < all[i];
    assert InSlice(all[c], used, evalCount, |xs|);
  }

  lemma ApartIff<T>(xs: seq<T>, good: T -> bool, used: nat, evalCount: nat)
    requires used <= |Positions(xs, good)|
    ensures Apart(xs, good, used, evalCount) <==> GoodStart(xs, good, used) || NoGoodInSlice(xs, good, used, evalCount)
  {
    PositionsFewer(xs, good);
    if GoodStart(xs, good, used) {
      ApartWhenGoodStart(xs, good, used, evalCount);
    } else if NoGoodInSlice(xs, good, used, evalCount) {
      ApartWhenNoneEvaluated(xs, good, used, evalCount);
    } else {
      var p :| InSlice(p, used, evalCount, |xs|) && good(xs[p]);
      OverlapOtherwise(xs, good, used, evalCount, p);
    }
  }

  // ---------------------------------------------------------------------------- which buckets, in which order

  /** Position of a preferred name; every other name comes after all of them. */
  function Rank(preferredAll: seq<string>, b: string): (k: nat)
    ensures k <= |preferredAll|
    ensures k < |preferredAll| <==> b in preferredAll
    ensures k < |preferredAll| ==> preferredAll[k] == b
  {
    if preferredAll == [] then 0
    else
      var before := Rank(preferredAll[..|preferredAll| - 1], b);
      if before < |preferredAll| - 1 || preferredAll[|preferredAll| - 1] == b then before else |preferredAll|
  }

  /** Preferred names in their listed order, then the others by name. */
  ghost predicate Before(preferredAll: seq<string>, a: string, b: string) {
    || Rank(preferredAll, a) < Rank(preferredAll, b)
    || (a !in preferredAll && b !in preferredAll && StrLe(a, b))
  }

  /** All names as the choice ranks them, before it is cut to three. */
  function RankedNames(preferredAll: seq<string>, names: seq<string>): seq<string> {
    var preferred := Filter(preferredAll, AmongNames(names));
    preferred + Filter(Sorted(names, StrLe), Outside(preferred))
  }

  lemma RankAt(preferredAll: seq<string>, k: nat)
    requires Distinct(preferredAll) && k < |preferredAll|
    ensures Rank(preferredAll, preferredAll[k]) == k
  {
    assert preferredAll[k] in preferredAll;
    var r := Rank(preferredAll, preferredAll[k]);
    assert preferredAll[r] == preferredAll[k];
  }

  lemma FilterOrdered<T(!new)>(xs: seq<T>, keep: T -> bool, le: (T, T) -> bool)
    requires Ordered(xs, le)
    ensures Ordered(Filter(xs, keep), le)
  {
    PositionsExact(xs, keep);
    PositionsIncrease(xs, keep);
  }

  lemma PreferredRanked(preferredAll: seq<string>, names: seq<string>, i: nat, j: nat)
    requires Distinct(preferredAll) && i < j < |Filter(preferredAll, AmongNames(names))|
    ensures var preferred := Filter(preferredAll, AmongNames(names));
      Rank(preferredAll, preferred[i]) < Rank(preferredAll, preferred[j])
  {
    var at := Positions(preferredAll, AmongNames(names));
    PositionsExact(preferredAll, AmongNames(names));
    PositionsIncrease(preferredAll, AmongNames(names));
    RankAt(preferredAll, at[i]);
    RankAt(preferredAll, at[j]);
  }

  lemma OtherIsNotPreferred(preferredAll: seq<string>, names: seq<string>, b: string)
    requires b in Filter(Sorted(names, StrLe), Outside(Filter(preferredAll, AmongNames(names))))
    ensures b in names && b !in preferredAll
  {
    SortedPermutes(names, StrLe);
    assert b in multiset(Sorted(names, StrLe));
    if b in preferredAll { FilterMember(preferredAll, AmongNames(names), b); }
  }

  lemma OthersOrdered(names: seq<string>, preferred: seq<string>)
    ensures Ordered(Filter(Sorted(names, StrLe), Outside(preferred)), StrLe)
  {
    StrLeIsOrder();
    SortedOrdered(names, StrLe);
    FilterOrdered(Sorted(names, StrLe), Outside(preferred), StrLe);
  }

  lemma OthersRanked(preferredAll: seq<string>, names: seq<string>, i: nat, j: nat)
    requires i < j < |Filter(Sorted(names, StrLe), Outside(Filter(preferredAll, AmongNames(names))))|
    ensures var rest := Filter(Sorted(names, StrLe), Outside(Filter(preferredAll, AmongNames(names))));
      Before(preferredAll, rest[i], rest[j])
  {
    var preferred := Filter(preferredAll, AmongNames(names));
    var rest := Filter(Sorted(names, StrLe), Outside(preferred));
    OthersOrdered(names, preferred);
    assert rest[i] in rest && rest[j] in rest;
    OtherIsNotPreferred(preferredAll, names, rest[i]);
    OtherIsNotPreferred(preferredAll, names, rest[j]);
  }

  lemma PreferredBeforeOthers(preferredAll: seq<string>, names: seq<string>, a: string, b: string)
    requires a in Filter(preferredAll, AmongNames(names))
    requires b in Filter(Sorted(names, StrLe), Outside(Filter(preferredAll, AmongNames(names))))
    ensures Before(preferredAll, a, b)
  {
    OtherIsNotPreferred(preferredAll, names, b);
  }

  lemma RankedInOrder(preferredAll: seq<string>, names: seq<string>, i: nat, j: nat)
    requires Distinct(preferredAll) && i < j < |RankedNames(preferredAll, names)|
    ensures Before(preferredAll, RankedNames(preferredAll, names)[i], RankedNames(preferredAll, names)[j])
  {
    var preferred := Filter(preferredAll, AmongNames(names));
    var rest := Filter(Sorted(names, StrLe), Outside(preferred));
    if j < |preferred| {
      PreferredRanked(preferredAll, names, i, j);
    } else if i >= |preferred| {
      OthersRanked(preferredAll, names, i - |preferred|, j - |preferred|);
    } else {
      PreferredBeforeOthers(preferredAll, names, preferred[i], rest[j - |preferred|]);
    }
  }

  lemma RankedExactly(preferredAll: seq<string>, names: seq<string>)
    requires Distinct(preferredAll) && Distinct(names)
    ensures Distinct(RankedNames(preferredAll, names)) && |RankedNames(preferredAll, names)| == |names|
    ensures forall b :: b in RankedNames(preferredAll, names) <==> b in names
  {
    var ranked, preferred := RankedNames(preferredAll, names), Filter(preferredAll, AmongNames(names));
    var sorted := Sorted(names, StrLe);
    var rest := Filter(sorted, Outside(preferred));
    SortedPermutes(names, StrLe);
    PermutationDistinct(names, sorted);
    FilterDistinct(preferredAll, AmongNames(names));
    FilterDistinct(sorted, Outside(preferred));
    JoinDistinct(preferred, rest, |ranked|);
    assert Take(ranked, |ranked|) == ranked;
    forall b ensures b in ranked <==> b in names {
      assert b in names <==> b in multiset(sorted);
      if b in names && b !in preferred { FilterMember(sorted, Outside(preferred), b); }
    }
    SameElements(ranked, names);
  }

  lemma SameElements<T(!new)>(xs: seq<T>, ys: seq<T>)
    requires Distinct(xs) && Distinct(ys) && forall x :: x in xs <==> x in ys
    ensures |xs| == |ys|
  {
    forall x ensures multiset(xs)[x] == multiset(ys)[x] {
      DistinctMultiplicity(xs, x);
      DistinctMultiplicity(ys, x);
      assert x in xs <==> x in multiset(xs);
      assert x in ys <==> x in multiset(ys);
    }
    assert multiset(xs) == multiset(ys);
    assert |multiset(xs)| == |xs| && |multiset(ys)| == |ys|;
  }

  /** The names in `chosen` are the first of all, in order: the whole choice. */
  ghost predicate FirstThree(preferredAll: seq<string>, names: seq<string>, chosen: seq<string>) {
    && |chosen| == (if |names| < 3 then |names| else 3)
    && (forall b :: b in chosen ==> b in names)
    && (forall i, j :: 0 <= i < j < |chosen| ==> Before(preferredAll, chosen[i], chosen[j]))
    && (forall c, b :: c in chosen && b in names && b !in chosen ==> Before(preferredAll, c, b))
  }

  lemma FirstOfRanked(preferredAll: seq<string>, names: seq<string>)
    requires Distinct(preferredAll) && Distinct(names)
    ensures FirstThree(preferredAll, names, OrderedNames(preferredAll, names))
  {
    var ranked, chosen := RankedNames(preferredAll, names), OrderedNames(preferredAll, names);
    RankedExactly(preferredAll, names);
    assert forall i :: 0 <= i < |chosen| ==> chosen[i] == ranked[i] && ranked[i] in ranked;
    forall i, j | 0 <= i < j < |chosen| ensures Before(preferredAll, chosen[i], chosen[j]) {
      RankedInOrder(preferredAll, names, i, j);
    }
    forall c, b | c in chosen && b in names && b !in chosen ensures Before(preferredAll, c, b) {
      var i :| 0 <= i < |chosen| && chosen[i] == c;
      assert b in ranked;
      var j :| 0 <= j < |ranked| && ranked[j] == b;
      assert j >= |chosen|;
      RankedInOrder(preferredAll, names, i, j);
    }
  }

  lemma NamedBucket(buckets: Buckets, b: string)
    ensures b in BucketNames(buckets) <==> exists i :: 0 <= i < |buckets| && buckets[i].0 == b
  {
    if i :| 0 <= i < |buckets| && buckets[i].0 == b { assert BucketNames(buckets)[i] == b; }
  }

  lemma FilterEmptyIff(rows: seq<DriftRow>, b: string)
    ensures Filter(rows, HasKey(BucketKey, b)) != [] <==> exists r :: r in rows && BucketKey(r) == b
  {
    var own := Filter(rows, HasKey(BucketKey, b));
    if r :| r in rows && BucketKey(r) == b { FilterMember(rows, HasKey(BucketKey, b), r); }
    if own != [] { assert own[0] in own; }
  }

  lemma BucketNamesExact(rows: seq<DriftRow>, b: string)
    ensures b in BucketNames(RowsByBucket(rows)) <==> exists r :: r in rows && BucketKey(r) == b
  {
    GroupByValid(rows, BucketKey);
    GroupByLookup(rows, BucketKey, b);
    LookupMissing(RowsByBucket(rows), b);
    NamedBucket(RowsByBucket(rows), b);
    FilterEmptyIff(rows, b);
  }

  /** The buckets used are the first three among those of the rows, preferred ones in their listed order and then
      the others by name; all of them when there are no more. */
  lemma BucketOrder(rows: seq<DriftRow>)
    ensures FirstThree(PREFERRED, BucketNames(RowsByBucket(rows)), OrderedBuckets(RowsByBucket(rows)))
    ensures forall b :: b in BucketNames(RowsByBucket(rows)) <==> exists r :: r in rows && BucketKey(r) == b
  {
    GroupByValid(rows, BucketKey);
    PreferredDistinct();
    FirstOfRanked(PREFERRED, BucketNames(RowsByBucket(rows)));
    forall b ensures b in BucketNames(RowsByBucket(rows)) <==> exists r :: r in rows && BucketKey(r) == b {
      BucketNamesExact(rows, b);
    }
  }

  function BucketRows(stableRows: seq<DriftRow>, bucket: string): seq<DriftRow> {
    Lookup(RowsByBucket(stableRows), bucket)
  }

  lemma {:induction false} FiltersCommute<T>(rows: seq<T>, p: T -> bool, q: T -> bool)
    ensures Filter(Filter(rows, p), q) == Filter(Filter(rows, q), p)
  {
    if rows != [] {
      FiltersCommute(rows[1..], p, q);
      FilterAppend(if p(rows[0]) then [rows[0]] else [], Filter(rows[1..], p), q);
      FilterAppend(if q(rows[0]) then [rows[0]] else [], Filter(rows[1..], q), p);
    }
  }

  lemma AnchorsAreFirstGood(stableRows: seq<DriftRow>, trainCount: nat, bucket: string)
    ensures AnchorsOf(stableRows, trainCount)(bucket)
      == Take(Filter(BucketRows(stableRows, bucket), IsGoodRow), trainCount)
  {
    GroupByLookup(stableRows, BucketKey, bucket);
    GroupByLookup(Filter(stableRows, IsGoodRow), BucketKey, bucket);
    FiltersCommute(stableRows, IsGoodRow, HasKey(BucketKey, bucket));
  }

  lemma TakenMatches<T>(xs: seq<T>, good: T -> bool, n: nat)
    ensures var taken := Take(Filter(xs, good), n);
      |taken| <= |Positions(xs, good)| && forall i :: 0 <= i < |taken| ==> taken[i] == xs[Positions(xs, good)[i]]
    ensures |Take(Filter(xs, good), n)| <= |xs|
  {
    PositionsExact(xs, good);
    PositionsFewer(xs, good);
  }

  lemma SlicePositions<T>(xs: seq<T>, a: nat, n: nat)
    requires a <= |xs|
    ensures forall i :: 0 <= i < |Slice(xs, a, n)| ==> a + i < |xs| && Slice(xs, a, n)[i] == xs[a + i]
    ensures forall p :: 0 <= p - a < |Slice(xs, a, n)| <==> InSlice(p, a, n, |xs|)
  {
    assert Slice(xs, a, n) == Take(xs[a..], n);
  }

  /** Where the manifests' rows sit in their bucket: anchor i at the i-th good position, evaluation row i at
      position `used` + i. */
  lemma RowsAtPositions(stableRows: seq<DriftRow>, trainCount: nat, evalCount: nat, bucket: string)
    ensures var rows := BucketRows(stableRows, bucket);
      var anchors, eval := AnchorsOf(stableRows, trainCount)(bucket), EvalOf(stableRows, trainCount, evalCount)(bucket);
      && |anchors| <= |Positions(rows, IsGoodRow)|
      && (forall i :: 0 <= i < |anchors| ==> anchors[i] == rows[Positions(rows, IsGoodRow)[i]])
      && (forall i :: 0 <= i < |eval| ==> |anchors| + i < |rows| && eval[i] == rows[|anchors| + i])
      && (forall p :: 0 <= p - |anchors| < |eval| <==> InSlice(p, |anchors|, evalCount, |rows|))
  {
    AnchorsAreFirstGood(stableRows, trainCount, bucket);
    TakenMatches(BucketRows(stableRows, bucket), IsGoodRow, trainCount);
    SlicePositions(BucketRows(stableRows, bucket), |AnchorsOf(stableRows, trainCount)(bucket)|, evalCount);
  }

  /** A training anchor is also an evaluation row exactly when its bucket does not start with enough good rows
      and a good row is among those evaluated. */
  lemma ManifestsDisjointIff(stableRows: seq<DriftRow>, trainCount: nat, evalCount: nat, bucket: string)
    ensures var rows, used := BucketRows(stableRows, bucket), |AnchorsOf(stableRows, trainCount)(bucket)|;
      used <= |Positions(rows, IsGoodRow)| &&
      (Apart(rows, IsGoodRow, used, evalCount)
       <==> GoodStart(rows, IsGoodRow, used) || NoGoodInSlice(rows, IsGoodRow, used, evalCount))
  {
    RowsAtPositions(stableRows, trainCount, evalCount, bucket);
    ApartIff(BucketRows(stableRows, bucket), IsGoodRow, |AnchorsOf(stableRows, trainCount)(bucket)|, evalCount);
  }

  predicate HasFlag(row: DriftRow) { Lower(row.isDefective) == "true" || Lower(row.isDefective) == "false" }

  lemma ConformingRowIsGood(row: DriftRow)
    requires IsGoodConformingRow(row) && HasFlag(row)
    ensures IsGoodRow(row)
  {
  }

  /** When the scenario builder kept every stable row, and rows carry an explicit `is_defective` flag, anchors
      and evaluation rows never share a position. */
  lemma BaselineBucketsDisjoint(stableRows: seq<DriftRow>, trainCount: nat, evalCount: nat, bucket: string)
    requires forall r :: r in stableRows ==> IsGoodConformingRow(r) && HasFlag(r)
    ensures var rows, used := BucketRows(stableRows, bucket), |AnchorsOf(stableRows, trainCount)(bucket)|;
      used <= |Positions(rows, IsGoodRow)| && Apart(rows, IsGoodRow, used, evalCount)
  {
    GroupByLookup(stableRows, BucketKey, bucket);
    ManifestsDisjointIff(stableRows, trainCount, evalCount, bucket);
    var rows := BucketRows(stableRows, bucket);
    PositionsFewer(rows, IsGoodRow);
    forall i | 0 <= i < |rows| ensures IsGoodRow(rows[i]) {
      assert rows[i] in stableRows;
      ConformingRowIsGood(rows[i]);
    }
  }

  lemma AllTheSame<T>(xs: seq<T>, x: T)
    requires Distinct(xs) && x in xs && forall y :: y in xs ==> y == x
    ensures xs == [x]
  {
    assert |xs| <= 1 || xs[0] != xs[1];
    assert forall k :: 0 <= k < |xs| ==> xs[k] in xs;
  }

  lemma OtherNameIsChosen(preferredAll: seq<string>, b: string)
    requires b !in preferredAll
    ensures OrderedNames(preferredAll, [b]) == [b]
  {
    FilterUniform(preferredAll, AmongNames([b]), false);
    SortedPermutes([b], StrLe);
    var sorted := Sorted([b], StrLe);
    assert multiset(sorted) == multiset{b} && |multiset(sorted)| == |sorted|;
    assert sorted[0] in multiset(sorted);
    assert Filter(sorted[1..], Outside([])) == [];
    assert Filter(sorted, Outside([])) == [b];
  }

  lemma SingleName(b: string)
    ensures OrderedNames(PREFERRED, [b]) == [b]
  {
    if b in PREFERRED {
      PreferredDistinct();
      OrderedNamesDistinct(PREFERRED, [b]);
      PreferredAreChosen(PREFERRED, [b], b);
      AllTheSame(OrderedNames(PREFERRED, [b]), b);
    } else {
      OtherNameIsChosen(PREFERRED, b);
    }
  }

  lemma PairOfBucket(bad: DriftRow, good: DriftRow)
    requires BucketKey(bad) == BucketKey(good)
    ensures RowsByBucket([bad, good]) == [(BucketKey(good), [bad, good])]
    ensures RowsByBucket([good]) == [(BucketKey(good), [good])]
  {
    GroupBySnoc([], bad, BucketKey);
    GroupBySnoc([], good, BucketKey);
    GroupBySnoc([bad], good, BucketKey);
    assert [] + [bad] == [bad] && [] + [good] == [good] && [bad] + [good] == [bad, good];
  }

  lemma FilterPair<T>(bad: T, good: T, keep: T -> bool)
    requires !keep(bad) && keep(good)
    ensures Filter([bad, good], keep) == [good] && Filter([good], keep) == [good]
  {
    assert [bad] + [good] == [bad, good] && [] + [good] == [good];
    FilterSnoc([], good, keep);
    FilterSnoc([], bad, keep);
    assert Filter([bad], keep) == [];
    FilterSnoc([bad], good, keep);
  }

  lemma ChainedSingle<T>(name: string, part: string -> seq<T>)
    ensures Chained([name], part) == part(name)
  {
    assert [name][..0] == [];
  }

  lemma PairParts(bad: DriftRow, good: DriftRow)
    requires !IsGoodRow(bad) && IsGoodRow(good) && BucketKey(bad) == BucketKey(good)
    ensures OrderedBuckets(RowsByBucket([bad, good])) == [BucketKey(good)]
    ensures AnchorsOf([bad, good], 1)(BucketKey(good)) == [good]
    ensures EvalOf([bad, good], 1, 1)(BucketKey(good)) == [good]
  {
    PairOfBucket(bad, good);
    SingleName(BucketKey(good));
    assert BucketNames(RowsByBucket([bad, good])) == [BucketKey(good)];
    FilterPair(bad, good, IsGoodRow);
  }

  /** One defective stable row before a good one of its bucket, and one good context row, are enough to train and
      evaluate on the same row. */
  lemma AnchorIsEvaluated(context: DriftRow, bad: DriftRow, good: DriftRow)
    requires IsGoodRow(context) && !IsGoodRow(bad) && IsGoodRow(good) && BucketKey(bad) == BucketKey(good)
    ensures ManifestsOf([context], [bad, good]).anchors == [good]
    ensures ManifestsOf([context], [bad, good]).eval == [context, good]
  {
    PairParts(bad, good);
    FilterPair(bad, context, IsGoodRow);
    ChainedSingle(BucketKey(good), AnchorsOf([bad, good], 1));
    ChainedSingle(BucketKey(good), EvalOf([bad, good], 1, 1));
  }

  // ---------------------------------------------------------------------------- the loops

  method BalancedContextManifests(contextRows: seq<DriftRow>, stableRows: seq<DriftRow>) returns (m: Manifests)
    ensures m == ManifestsOf(contextRows, stableRows)
  {
    var stableGood := RowsByBucket(Filter(stableRows, IsGoodRow));
    var stableAll := RowsByBucket(stableRows);
    var names := OrderedBuckets(stableAll);
    var train := |Filter(contextRows, IsGoodRow)|;
    var anchorRows, anchorCounts := CollectAnchors(names, stableGood, train, AnchorsOf(stableRows, train));
    var evalStable, evalCounts := CollectEval(names, stableGood, stableAll, train, |contextRows|,
                                              EvalOf(stableRows, train, |contextRows|));
    m := Manifests(anchorRows, contextRows + evalStable, anchorCounts, evalCounts);
  }

  method CollectAnchors(names: seq<string>, stableGood: Buckets, train: nat, ghost part: string -> seq<DriftRow>)
    returns (rows: seq<DriftRow>, counts: seq<nat>)
    requires forall b :: part(b) == Take(Lookup(stableGood, b), train)
    ensures rows == Chained(names, part) && counts == Lengths(names, part)
  {
    rows, counts := [], [];
    for i := 0 to |names|
      invariant rows == Chained(names[..i], part) && counts == Lengths(names[..i], part)
    {
      assert names[..i + 1][..i] == names[..i];
      var anchors := Take(Lookup(stableGood, names[i]), train);
      rows := rows + anchors;
      counts := counts + [|anchors|];
    }
    assert names[..|names|] == names;
  }

  method CollectEval(names: seq<string>, stableGood: Buckets, stableAll: Buckets, train: nat, eval: nat,
                     ghost part: string -> seq<DriftRow>)
    returns (rows: seq<DriftRow>, counts: seq<nat>)
    requires forall b :: part(b) == Slice(Lookup(stableAll, b), |Take(Lookup(stableGood, b), train)|, eval)
    ensures rows == Chained(names, part) && counts == Lengths(names, part)
  {
    rows, counts := [], [];
    for i := 0 to |names|
      invariant rows == Chained(names[..i], part) && counts == Lengths(names[..i], part)
    {
      assert names[..i + 1][..i] == names[..i];
      var used := |Take(Lookup(stableGood, names[i]), train)|;
      var candidates := Slice(Lookup(stableAll, names[i]), used, eval);
      rows := rows + candidates;
      counts := counts + [|candidates|];
    }
    assert names[..|names|] == names;
  }
}

/** ROI-mask novelty: the Jaccard distance to the nearest reference mask, and the reference store that
    grows by view while the replay runs (scripts/run_drift_observation_replay.py). */
module RoiNovelty {
  import opened ReplayEvents
  import opened OrderStatistics
  import opened Groups
  import opened Arithmetic

  // ---------------------------------------------------------------------------- Jaccard distance

  function Intersection(v: seq<bool>, w: seq<bool>): (n: nat)
    requires |v| == |w|
    ensures n <= Union(v, w)
  {
    if v == [] then 0 else (if v[0] && w[0] then 1 else 0) + Intersection(v[1..], w[1..])
  }

  function Union(v: seq<bool>, w: seq<bool>): nat
    requires |v| == |w|
  {
    if v == [] then 0 else (if v[0] || w[0] then 1 else 0) + Union(v[1..], w[1..])
  }

  function DistanceOf(intersection: nat, union: nat): real {
    if union == 0 then 0.0 else 1.0 - intersection as real / union as real
  }

  function Jaccard(v: seq<bool>, w: seq<bool>): real
    requires |v| == |w|
  {
    DistanceOf(Intersection(v, w), Union(v, w))
  }

  /** Positions where exactly one of the masks is set. */
  function Difference(v: seq<bool>, w: seq<bool>): nat
    requires |v| == |w|
  {
    Union(v, w) - Intersection(v, w)
  }

  function Fraction(x: int, y: int): real
    requires y != 0
  {
    x as real / y as real
  }

  /** Positions where both masks, or at least one of them, is set. */
  ghost function SetInBoth(v: seq<bool>, w: seq<bool>): set<nat>
    requires |v| == |w|
  {
    set i: nat | i < |v| && v[i] && w[i]
  }

  ghost function SetInEither(v: seq<bool>, w: seq<bool>): set<nat>
    requires |v| == |w|
  {
    set i: nat | i < |v| && (v[i] || w[i])
  }

  lemma {:induction false} CountsFromBack(v: seq<bool>, w: seq<bool>)
    requires |v| == |w| && v != []
    ensures var n := |v| - 1;
      && Intersection(v, w) == Intersection(v[..n], w[..n]) + (if v[n] && w[n] then 1 else 0)
      && Union(v, w) == Union(v[..n], w[..n]) + (if v[n] || w[n] then 1 else 0)
  {
    var n := |v| - 1;
    if n > 0 {
      CountsFromBack(v[1..], w[1..]);
      assert v[1..][..n - 1] == v[..n][1..] && w[1..][..n - 1] == w[..n][1..];
    }
  }

  lemma BothGrows(v: seq<bool>, w: seq<bool>)
    requires |v| == |w| && v != []
    ensures var n := |v| - 1;
      |SetInBoth(v, w)| == |SetInBoth(v[..n], w[..n])| + (if v[n] && w[n] then 1 else 0)
  {
    var n := |v| - 1;
    assert SetInBoth(v, w) == SetInBoth(v[..n], w[..n]) + if v[n] && w[n] then {n} else {};
  }

  lemma EitherGrows(v: seq<bool>, w: seq<bool>)
    requires |v| == |w| && v != []
    ensures var n := |v| - 1;
      |SetInEither(v, w)| == |SetInEither(v[..n], w[..n])| + (if v[n] || w[n] then 1 else 0)
  {
    var n := |v| - 1;
    assert SetInEither(v, w) == SetInEither(v[..n], w[..n]) + if v[n] || w[n] then {n} else {};
  }

  lemma {:induction false} CountsAreSizes(v: seq<bool>, w: seq<bool>)
    requires |v| == |w|
    ensures Intersection(v, w) == |SetInBoth(v, w)| && Union(v, w) == |SetInEither(v, w)|
    decreases |v|
  {
    if v == [] {
      assert SetInBoth(v, w) == {} == SetInEither(v, w);
    } else {
      CountsFromBack(v, w);
      BothGrows(v, w);
      EitherGrows(v, w);
      CountsAreSizes(v[..|v| - 1], w[..|v| - 1]);
    }
  }

  /** `share` is this part of the whole, 0 of nothing. */
  predicate IsShare(share: real, part: int, whole: nat) {
    if whole == 0 then share == 0.0 else share * whole as real == part as real
  }

  /** The distance is the share of the positions set in either mask that are not set in both. */
  lemma JaccardCounts(v: seq<bool>, w: seq<bool>)
    requires |v| == |w|
    ensures IsShare(Jaccard(v, w), |SetInEither(v, w)| - |SetInBoth(v, w)|, |SetInEither(v, w)|)
  {
    CountsAreSizes(v, w);
    DistanceIsShare(Intersection(v, w), Union(v, w));
  }

  lemma DistanceIsShare(intersection: nat, union: nat)
    ensures IsShare(DistanceOf(intersection, union), union - intersection, union)
  {
    if union != 0 { assert intersection as real / union as real * union as real == intersection as real; }
  }

  lemma JaccardIsDifferenceOverUnion(v: seq<bool>, w: seq<bool>)
    requires |v| == |w| && Union(v, w) != 0
    ensures Jaccard(v, w) == Fraction(Difference(v, w), Union(v, w))
  {
    DistanceIsFraction(Intersection(v, w), Union(v, w));
  }

  lemma DistanceIsFraction(x: nat, y: nat)
    requires y != 0
    ensures DistanceOf(x, y) == Fraction(y - x, y)
  {
    var p, q := x as real, y as real;
    assert q / q == 1.0;
    assert (q - p) / q == q / q - p / q;
  }

  /** Adding the same amount to a numerator and a larger denominator does not lower the fraction. */
  lemma FractionGrows(x: real, y: real, p: real)
    requires 0.0 <= x <= y && 0.0 < y && 0.0 <= p
    ensures x / y <= (x + p) / (y + p)
  {
    var q := x / y;
    QuotientAtMostOne(x, y);
    ScaledBelow(q, y, x, p);
    FractionMonotone(q * (y + p), x + p, y + p);
    QuotientOfProduct(q, y + p);
  }

  lemma QuotientAtMostOne(x: real, y: real)
    requires 0.0 <= x <= y && 0.0 < y
    ensures x / y <= 1.0 && (x / y) * y == x
  {
    FractionMonotone(x, y, y);
  }

  lemma ScaledBelow(q: real, y: real, x: real, p: real)
    requires q <= 1.0 && 0.0 <= p && q * y == x
    ensures q * (y + p) <= x + p
  {
    assert (1.0 - q) * p >= 0.0;
  }

  lemma QuotientOfProduct(q: real, y: real)
    requires y != 0.0
    ensures q * y / y == q
  {
  }

  lemma LargerDenominator(x: real, y: real, total: real)
    requires 0.0 <= x && 0.0 < y <= total
    ensures x / total <= x / y
  {
    var q := x / y;
    assert q * y == x && q >= 0.0;
    assert q * y <= q * total;
    FractionMonotone(x, q * total, total);
    assert q * total / total == q;
  }

  lemma JaccardRange(v: seq<bool>, w: seq<bool>)
    requires |v| == |w|
    ensures 0.0 <= Jaccard(v, w) <= 1.0
  {
    if Union(v, w) != 0 {
      JaccardIsDifferenceOverUnion(v, w);
      FractionMonotone(Difference(v, w) as real, Union(v, w) as real, Union(v, w) as real);
    }
  }

  lemma {:induction false} SymmetricCounts(v: seq<bool>, w: seq<bool>)
    requires |v| == |w|
    ensures Intersection(v, w) == Intersection(w, v) && Union(v, w) == Union(w, v)
  {
    if v != [] { SymmetricCounts(v[1..], w[1..]); }
  }

  lemma JaccardSymmetric(v: seq<bool>, w: seq<bool>)
    requires |v| == |w|
    ensures Jaccard(v, w) == Jaccard(w, v)
  {
    SymmetricCounts(v, w);
  }

  lemma {:induction false} NoDifferenceIffEqual(v: seq<bool>, w: seq<bool>)
    requires |v| == |w|
    ensures Difference(v, w) == 0 <==> v == w
  {
    if v != [] {
      NoDifferenceIffEqual(v[1..], w[1..]);
      assert v == [v[0]] + v[1..] && w == [w[0]] + w[1..];
    }
  }

  lemma JaccardZeroIffEqual(v: seq<bool>, w: seq<bool>)
    requires |v| == |w|
    ensures Jaccard(v, w) == 0.0 <==> v == w
  {
    NoDifferenceIffEqual(v, w);
    if Union(v, w) != 0 {
      JaccardIsDifferenceOverUnion(v, w);
      var d, u := Difference(v, w) as real, Union(v, w) as real;
      if d / u == 0.0 { assert d == (d / u) * u; }
    }
  }

  /** Positions set in at least one of three masks. */
  function UnionOfThree(a: seq<bool>, b: seq<bool>, c: seq<bool>): nat
    requires |a| == |b| == |c|
  {
    if a == [] then 0 else (if a[0] || b[0] || c[0] then 1 else 0) + UnionOfThree(a[1..], b[1..], c[1..])
  }

  /** The counting core of the triangle inequality: positions only b sets are in both differences. */
  lemma {:induction false} ThreeMaskCounts(a: seq<bool>, b: seq<bool>, c: seq<bool>)
    requires |a| == |b| == |c|
    ensures Union(a, b) <= UnionOfThree(a, b, c) && Union(b, c) <= UnionOfThree(a, b, c)
      && Union(a, c) <= UnionOfThree(a, b, c)
    ensures Difference(a, c) + (UnionOfThree(a, b, c) - Union(a, c)) <= Difference(a, b) + Difference(b, c)
  {
    if a != [] { ThreeMaskCounts(a[1..], b[1..], c[1..]); }
  }

  lemma LargerUnionSmallerFraction(v: seq<bool>, w: seq<bool>, total: real)
    requires |v| == |w| && Union(v, w) as real <= total && 0.0 < total
    ensures Difference(v, w) as real / total <= Jaccard(v, w)
  {
    if Union(v, w) == 0 {
      assert Difference(v, w) == 0;
    } else {
      JaccardIsDifferenceOverUnion(v, w);
      LargerDenominator(Difference(v, w) as real, Union(v, w) as real, total);
    }
  }

  lemma TriangleArithmetic(d: real, u: real, total: real, ab: real, bc: real)
    requires 0.0 <= d <= u && 0.0 < u <= total && d + (total - u) <= ab + bc
    ensures d / u <= ab / total + bc / total
  {
    FractionGrows(d, u, total - u);
    FractionMonotone(d + (total - u), ab + bc, total);
    assert (ab + bc) / total == ab / total + bc / total;
  }

  lemma JaccardTriangle(a: seq<bool>, b: seq<bool>, c: seq<bool>)
    requires |a| == |b| == |c|
    ensures Jaccard(a, c) <= Jaccard(a, b) + Jaccard(b, c)
  {
    JaccardRange(a, b);
    JaccardRange(b, c);
    if Union(a, c) != 0 {
      ThreeMaskCounts(a, b, c);
      var total := UnionOfThree(a, b, c) as real;
      JaccardIsDifferenceOverUnion(a, c);
      TriangleArithmetic(Difference(a, c) as real, Union(a, c) as real, total,
                         Difference(a, b) as real, Difference(b, c) as real);
      LargerUnionSmallerFraction(a, b, total);
      LargerUnionSmallerFraction(b, c, total);
    }
  }

  // ---------------------------------------------------------------------------- nearest reference

  /** Distance to the nearest reference, 0 when there is none. */
  function Nearest(v: Mask, refs: seq<Mask>): (d: real)
  {
    if refs == [] then 0.0
    else if |refs| == 1 then Jaccard(v, refs[0])
    else
      var head, rest := Jaccard(v, refs[0]), Nearest(v, refs[1..]);
      if head <= rest then head else rest
  }

  /** `Nearest` is the minimum: a lower bound that one of the references attains. */
  lemma {:induction false} NearestIsMinimum(v: Mask, refs: seq<Mask>)
    requires refs != []
    ensures exists r :: r in refs && Nearest(v, refs) == Jaccard(v, r)
    ensures forall r :: r in refs ==> Nearest(v, refs) <= Jaccard(v, r)
  {
    assert refs[0] in refs;
    if |refs| > 1 {
      NearestIsMinimum(v, refs[1..]);
      forall r | r in refs ensures Nearest(v, refs) <= Jaccard(v, r) {
        assert r == refs[0] || r in refs[1..];
      }
      var near :| near in refs[1..] && Nearest(v, refs[1..]) == Jaccard(v, near);
      assert near in refs;
    }
  }

  /** Two masks at Jaccard distance d have nearest distances at most d apart. */
  lemma NearestLipschitz(v: Mask, w: Mask, refs: seq<Mask>)
    requires refs != []
    ensures -Jaccard(v, w) <= Nearest(v, refs) - Nearest(w, refs) <= Jaccard(v, w)
  {
    NearestAtMost(v, w, refs);
    NearestAtMost(w, v, refs);
    JaccardSymmetric(v, w);
  }

  lemma NearestAtMost(v: Mask, w: Mask, refs: seq<Mask>)
    requires refs != []
    ensures Nearest(v, refs) <= Jaccard(v, w) + Nearest(w, refs)
  {
    NearestIsMinimum(v, refs);
    NearestIsMinimum(w, refs);
    var r :| r in refs && Nearest(w, refs) == Jaccard(w, r);
    JaccardTriangle(v, w, r);
  }

  /** A mask is at distance 0 exactly when it is one of the references. */
  lemma NearestZeroIffKnown(v: Mask, refs: seq<Mask>)
    requires refs != []
    ensures Nearest(v, refs) == 0.0 <==> v in refs
  {
    NearestIsMinimum(v, refs);
    var r :| r in refs && Nearest(v, refs) == Jaccard(v, r);
    JaccardZeroIffEqual(v, r);
    JaccardRange(v, r);
    if v in refs { JaccardZeroIffEqual(v, v); }
  }

  method NearestJaccardDistance(vector: Mask, references: seq<Mask>) returns (d: real)
    ensures d == Nearest(vector, references)
  {
    var distances: seq<real> := [];
    for i := 0 to |references|
      invariant |distances| == i
      invariant forall j :: 0 <= j < i ==> distances[j] == Jaccard(vector, references[j])
    {
      var intersection, union := 0, 0;
      for k := 0 to |vector|
        invariant intersection + Intersection(vector[k..], references[i][k..]) == Intersection(vector, references[i])
        invariant union + Union(vector[k..], references[i][k..]) == Union(vector, references[i])
      {
        if vector[k] && references[i][k] { intersection := intersection + 1; }
        if vector[k] || references[i][k] { union := union + 1; }
      }
      distances := distances + [DistanceOf(intersection, union)];
    }
    if distances == [] { return 0.0; }
    d := distances[|distances| - 1];
    for i := |distances| - 1 downto 0
      invariant d == Nearest(vector, references[i..])
    {
      if distances[i] <= d { d := distances[i]; }
      assert references[i..][1..] == references[i + 1..];
    }
  }

  // ---------------------------------------------------------------------------- reference store

  /** `by_view`: the reference masks of each view, views in order of first appearance. */
  type ByView = Groups<string, Mask>

  function AddAll(byView: ByView, events: seq<CycleEvent>): ByView
    decreases |events|
  {
    if events == [] then byView
    else AddAll(match events[0].roiMask
                case None => byView
                case Some(mask) => Append(byView, events[0].viewKey, mask), events[1..])
  }

  /** The masks that events of one view carry, in replay order. */
  function MasksOfView(events: seq<CycleEvent>, view: string): seq<Mask> {
    if events == [] then []
    else (if events[0].viewKey == view && events[0].roiMask.Some? then [events[0].roiMask.value] else [])
         + MasksOfView(events[1..], view)
  }

  /** References of the event's own view; every reference while that view has none. */
  function ReferencesFor(byView: ByView, view: string): seq<Mask> {
    if Lookup(byView, view) != [] then Lookup(byView, view) else Flatten(byView)
  }

  /** The store after any number of events: each view holds exactly its masks, in order, and the flat
      list loses and duplicates nothing. */
  lemma {:induction false} StoreContents(byView: ByView, events: seq<CycleEvent>, view: string)
    ensures Lookup(AddAll(byView, events), view) == Lookup(byView, view) + MasksOfView(events, view)
    ensures |Flatten(AddAll(byView, events))| == |Flatten(byView)| + CountIf(events, (e: CycleEvent) => e.roiMask.Some?)
    ensures forall m :: m in Flatten(byView) ==> m in Flatten(AddAll(byView, events))
    decreases |events|
  {
    if events != [] {
      match events[0].roiMask
      case None =>
        StoreContents(byView, events[1..], view);
      case Some(mask) =>
        LookupAppend(byView, events[0].viewKey, mask, view);
        var next := Append(byView, events[0].viewKey, mask);
        assert |multiset(Flatten(next))| == |multiset(Flatten(byView))| + 1;
        StoreContents(next, events[1..], view);
        forall m | m in Flatten(byView) ensures m in Flatten(next) { assert m in multiset(Flatten(next)); }
    }
  }

  /** No mask is farther from the references `after` than from `before` exactly when none of `before` is lost. */
  lemma NeverFartherIff(before: seq<Mask>, after: seq<Mask>)
    requires before != [] && after != []
    ensures (forall v: Mask :: Nearest(v, after) <= Nearest(v, before)) <==> (forall r :: r in before ==> r in after)
  {
    if forall r :: r in before ==> r in after {
      forall v: Mask ensures Nearest(v, after) <= Nearest(v, before) {
        NearestIsMinimum(v, before);
        NearestIsMinimum(v, after);
      }
    } else {
      var lost :| lost in before && lost !in after;
      NearestZeroIffKnown(lost, before);
      NearestZeroIffKnown(lost, after);
      NearestIsMinimum(lost, after);
      var r :| r in after && Nearest(lost, after) == Jaccard(lost, r);
      JaccardRange(lost, r);
      assert !(Nearest(lost, after) <= Nearest(lost, before));
    }
  }

  /** Storing more events moves no mask of a view away exactly when the view already has references, or gets none,
      or gets all the references it used before. */
  lemma StoringBringsCloserIff(byView: ByView, events: seq<CycleEvent>, view: string)
    requires ReferencesFor(byView, view) != []
    ensures var before, after := ReferencesFor(byView, view), ReferencesFor(AddAll(byView, events), view);
      (forall v: Mask :: Nearest(v, after) <= Nearest(v, before))
      <==> || Lookup(byView, view) != []
           || MasksOfView(events, view) == []
           || forall r :: r in Flatten(byView) ==> r in MasksOfView(events, view)
  {
    StoreContents(byView, events, view);
    var before, after := ReferencesFor(byView, view), ReferencesFor(AddAll(byView, events), view);
    assert after != [] by { assert before[0] in before; }
    NeverFartherIff(before, after);
    if Lookup(byView, view) == [] && MasksOfView(events, view) != [] {
      assert before == Flatten(byView) && after == [] + MasksOfView(events, view) == MasksOfView(events, view);
    } else {
      assert forall r :: r in before ==> r in after;
    }
  }

  /** Otherwise it can move away: the first reference of a view replaces the whole fallback list. */
  lemma FirstViewReferenceCanMoveAway(full: CycleEvent, v: Mask, other: Mask)
    requires full.viewKey == "1_2" && full.roiMask == Some(other) && v != other
    ensures var byView := [("1_3", [v])];
      && Nearest(v, ReferencesFor(byView, "1_2")) == 0.0
      && Nearest(v, ReferencesFor(AddAll(byView, [full]), "1_2")) > 0.0
  {
    var byView: ByView := [("1_3", [v])];
    assert Lookup(byView, "1_2") == [] && Flatten(byView) == [v];
    NearestZeroIffKnown(v, [v]);
    assert AddAll(byView, [full]) == Append(byView, "1_2", other) == byView + [("1_2", [other])];
    assert Lookup(byView + [("1_2", [other])], "1_2") == [other] by {
      assert (byView + [("1_2", [other])])[1..] == [("1_2", [other])];
    }
    NearestZeroIffKnown(v, [other]);
    JaccardRange(v, other);
  }

  // ---------------------------------------------------------------------------- window metrics

  datatype RoiMetrics = RoiMetrics(nnDistance: real, noveltyRate: real, areaRatio: real, referenceCount: nat)

  /** Distances of the events that have a mask and at least one reference to compare it with. */
  function Distances(byView: ByView, events: seq<CycleEvent>): seq<real> {
    if events == [] then [] else EventDistance(byView, events[0]) + Distances(byView, events[1..])
  }

  function EventDistance(byView: ByView, event: CycleEvent): seq<real> {
    var references := ReferencesFor(byView, event.viewKey);
    if event.roiMask.Some? && references != [] then [Nearest(event.roiMask.value, references)] else []
  }

  lemma DistancesCons(byView: ByView, first: CycleEvent, rest: seq<CycleEvent>)
    ensures Distances(byView, [first] + rest) == EventDistance(byView, first) + Distances(byView, rest)
  {
    assert ([first] + rest)[1..] == rest;
  }

  lemma {:induction false} DistancesSnoc(byView: ByView, events: seq<CycleEvent>, e: CycleEvent)
    ensures Distances(byView, events + [e]) == Distances(byView, events) + EventDistance(byView, e)
  {
    if events == [] {
      assert events + [e] == [e] + [];
      DistancesCons(byView, e, []);
    } else {
      var first, rest := events[0], events[1..];
      var head := EventDistance(byView, first);
      calc {
        Distances(byView, events + [e]);
        { assert events + [e] == [first] + (rest + [e]); DistancesCons(byView, first, rest + [e]); }
        head + Distances(byView, rest + [e]);
        { DistancesSnoc(byView, rest, e); }
        head + (Distances(byView, rest) + EventDistance(byView, e));
        (head + Distances(byView, rest)) + EventDistance(byView, e);
        { assert events == [first] + rest; DistancesCons(byView, first, rest); }
        Distances(byView, events) + EventDistance(byView, e);
      }
    }
  }

  lemma DistancesGrow(byView: ByView, events: seq<CycleEvent>, n: nat)
    requires n < |events|
    ensures Distances(byView, events[..n + 1]) == Distances(byView, events[..n]) + EventDistance(byView, events[n])
  {
    assert events[..n + 1] == events[..n] + [events[n]];
    DistancesSnoc(byView, events[..n], events[n]);
  }

  function AreaRatios(events: seq<CycleEvent>): seq<real> {
    seq(|events|, i requires 0 <= i < |events| => events[i].roiRatio)
  }

  function MedianOrZero(xs: seq<real>): real {
    if xs == [] then 0.0 else Median(xs)
  }

  function MetricsOf(byView: ByView, events: seq<CycleEvent>, noveltyDistance: real): RoiMetrics {
    var distances := Distances(byView, events);
    RoiMetrics(
      MedianOrZero(distances),
      if distances == [] then 0.0
      else CountIf(distances, d => d >= noveltyDistance) as real / |distances| as real,
      MedianOrZero(AreaRatios(events)),
      |Flatten(byView)|)
  }

  /** Two windows whose masks are pairwise within Jaccard distance `eps`. */
  ghost predicate SimilarWindows(es: seq<CycleEvent>, fs: seq<CycleEvent>, eps: real) {
    && |es| == |fs|
    && forall i :: 0 <= i < |es| ==>
      && es[i].viewKey == fs[i].viewKey
      && es[i].roiMask.Some? == fs[i].roiMask.Some?
      && (es[i].roiMask.Some? ==> Jaccard(es[i].roiMask.value, fs[i].roiMask.value) <= eps)
  }

  lemma {:induction false} SimilarDistances(byView: ByView, es: seq<CycleEvent>, fs: seq<CycleEvent>, eps: real)
    requires SimilarWindows(es, fs, eps)
    ensures Near(Distances(byView, es), Distances(byView, fs), eps)
  {
    if es != [] {
      SimilarDistances(byView, es[1..], fs[1..], eps);
      var references := ReferencesFor(byView, es[0].viewKey);
      if es[0].roiMask.Some? && references != [] {
        NearestLipschitz(es[0].roiMask.value, fs[0].roiMask.value, references);
      }
    }
  }

  /** The reported `roi_mask_nn_distance` is 1-Lipschitz in the masks of the window. */
  lemma WindowDistanceLipschitz(byView: ByView, es: seq<CycleEvent>, fs: seq<CycleEvent>, eps: real, novelty: real)
    requires SimilarWindows(es, fs, eps) && 0.0 <= eps
    ensures -eps <= MetricsOf(byView, es, novelty).nnDistance - MetricsOf(byView, fs, novelty).nnDistance <= eps
  {
    SimilarDistances(byView, es, fs, eps);
    if Distances(byView, es) != [] { MedianLipschitz(Distances(byView, es), Distances(byView, fs), eps); }
  }

  lemma {:induction false} KnownDistances(byView: ByView, events: seq<CycleEvent>)
    requires forall e :: e in events && e.roiMask.Some? ==> e.roiMask.value in ReferencesFor(byView, e.viewKey)
    ensures forall d :: d in Distances(byView, events) ==> d == 0.0
  {
    if events != [] {
      KnownDistances(byView, events[1..]);
      if events[0].roiMask.Some? {
        assert events[0] in events;
        NearestZeroIffKnown(events[0].roiMask.value, ReferencesFor(byView, events[0].viewKey));
      }
    }
  }

  /** A window whose masks are all known references shows no novelty at any positive novelty distance. */
  lemma KnownWindowIsNotNovel(byView: ByView, events: seq<CycleEvent>, novelty: real)
    requires forall e :: e in events && e.roiMask.Some? ==> e.roiMask.value in ReferencesFor(byView, e.viewKey)
    requires 0.0 < novelty
    ensures MetricsOf(byView, events, novelty).nnDistance == 0.0
    ensures MetricsOf(byView, events, novelty).noveltyRate == 0.0
  {
    KnownDistances(byView, events);
    var distances := Distances(byView, events);
    CountIfUniform(distances, d => d >= novelty, false);
    if distances != [] { MedianOfZeros(distances); }
  }

  lemma MedianOfZeros(xs: seq<real>)
    requires xs != [] && forall x :: x in xs ==> x == 0.0
    ensures Median(xs) == 0.0
  {
    AscendingProperties(xs);
    forall k | 0 <= k < |xs| ensures Ascending(xs)[k] == 0.0 {
      assert Ascending(xs)[k] in multiset(Ascending(xs));
      assert Ascending(xs)[k] in xs;
    }
  }

  class RoiMaskReference {
    var byView: ByView

    constructor ()
      ensures byView == []
    {
      byView := [];
    }

    method AddEvents(events: seq<CycleEvent>)
      modifies this
      ensures byView == AddAll(old(byView), events)
    {
      for i := 0 to |events|
        invariant AddAll(byView, events[i..]) == AddAll(old(byView), events)
      {
        if events[i].roiMask.Some? {
          byView := Append(byView, events[i].viewKey, events[i].roiMask.value);
        }
      }
    }

    method Metrics(events: seq<CycleEvent>, noveltyDistance: real) returns (m: RoiMetrics)
      ensures m == MetricsOf(byView, events, noveltyDistance)
    {
      var distances: seq<real> := [];
      for i := 0 to |events|
        invariant distances == Distances(byView, events[..i])
      {
        DistancesGrow(byView, events, i);
        var references := ReferencesFor(byView, events[i].viewKey);
        if events[i].roiMask.Some? && references != [] {
          var d := NearestJaccardDistance(events[i].roiMask.value, references);
          distances := distances + [d];
        }
      }
      assert events[..|events|] == events;
      m := RoiMetrics(
        MedianOrZero(distances),
        if distances == [] then 0.0
        else CountIf(distances, d => d >= noveltyDistance) as real / |distances| as real,
        MedianOrZero(AreaRatios(events)),
        |Flatten(byView)|);
    }
  }
}

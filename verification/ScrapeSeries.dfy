/** `_scrape_like_samples` (scripts/export_lifecycle_prometheus_backfill.py): samples are grouped into series,
    sorted by time and densified; other metrics pass through. */
module ScrapeSeries {
  import opened ReplayEvents
  import opened Sorting
  import opened Groups
  import opened SeriesHold

  /** `STATEFUL_METRICS` */
  predicate Stateful(metric: Metric) { metric.PromotionTotal? || metric.OtherStateful? }

  type SeriesKey = (Metric, map<string, string>)

  function KeyOf(s: Sample): SeriesKey { (s.metric, s.labels) }

  predicate Densified(s: Sample) { Stateful(s.metric) || s.metric.EpochTrace? }
  predicate PassesThrough(s: Sample) { !Densified(s) }

  predicate ByTime(a: Sample, b: Sample) { a.timestampMs <= b.timestampMs }

  function Series(samples: seq<Sample>, key: SeriesKey): seq<Sample> {
    Filter(samples, HasKey(KeyOf, key))
  }

  /** One series: stateful metrics are held until the end of the run, epoch traces only filled. */
  function Densify(series: seq<Sample>, end: int): seq<Sample>
    requires series != []
  {
    var ordered := Sorted(series, ByTime);
    if Stateful(series[0].metric) then Hold(ordered, end) else Fill(ordered)
  }

  function DensifyAll(groups: Groups<SeriesKey, Sample>, end: int): seq<Sample> {
    if groups == [] then []
    else (if groups[0].1 == [] then [] else Densify(groups[0].1, end)) + DensifyAll(groups[1..], end)
  }

  function ScrapeLike(samples: seq<Sample>, runEnd: Option<int>): seq<Sample> {
    match runEnd
    case None => samples
    case Some(end) =>
      Filter(samples, PassesThrough) + DensifyAll(GroupBy(Filter(samples, Densified), KeyOf), end)
  }

  lemma {:induction false} BeatsCopy(s: Sample, t: int, next: int)
    ensures forall x :: x in Beats(s, t, next) ==> KeyOf(x) == KeyOf(s) && x.value == s.value
    decreases next - t
  {
    if t < next { BeatsCopy(s, t + CADENCE_MS, next); }
  }

  lemma {:induction false} FillOneKey(samples: seq<Sample>, key: SeriesKey)
    requires forall x :: x in samples ==> KeyOf(x) == key
    ensures forall x :: x in Fill(samples) ==> KeyOf(x) == key
  {
    if |samples| > 1 {
      FillOneKey(samples[1..], key);
      BeatsCopy(samples[0], NextCadence(samples[0].timestampMs), samples[1].timestampMs);
      assert samples[0] in samples;
    }
  }

  lemma DensifyOneKey(series: seq<Sample>, end: int, key: SeriesKey)
    requires series != [] && forall x :: x in series ==> KeyOf(x) == key
    ensures forall x :: x in Densify(series, end) ==> KeyOf(x) == key
  {
    var ordered := Sorted(series, ByTime);
    SortedPermutes(series, ByTime);
    forall x | x in ordered ensures KeyOf(x) == key { assert x in multiset(ordered); assert x in series; }
    assert ordered[|ordered| - 1] in ordered;
    HoldIsFill(ordered, end);
    FillOneKey(WithSentinel(ordered, end), key);
    FillOneKey(ordered, key);
  }

  /** Every list of the groups holds one key. */
  ghost predicate Keyed(groups: Groups<SeriesKey, Sample>) {
    forall i :: 0 <= i < |groups| ==> forall x :: x in groups[i].1 ==> KeyOf(x) == groups[i].0
  }

  lemma {:induction false} SeriesOfDensified(groups: Groups<SeriesKey, Sample>, end: int, key: SeriesKey)
    requires Valid(groups) && Keyed(groups)
    ensures Series(DensifyAll(groups, end), key)
         == if Lookup(groups, key) == [] then [] else Densify(Lookup(groups, key), end)
  {
    if groups != [] {
      var own := groups[0];
      SeriesOfDensified(groups[1..], end, key);
      DensifyOneKey(own.1, end, own.0);
      FilterUniform(Densify(own.1, end), HasKey(KeyOf, key), own.0 == key);
      FilterAppend(Densify(own.1, end), DensifyAll(groups[1..], end), HasKey(KeyOf, key));
      if own.0 == key {
        LookupMissing(groups[1..], key);
        forall i | 0 <= i < |groups[1..]| ensures groups[1..][i].0 != key { assert groups[1..][i] == groups[i + 1]; }
      }
    }
  }

  predicate DensifiedKey(key: SeriesKey) { Stateful(key.0) || key.0.EpochTrace? }

  lemma SplitSeries(samples: seq<Sample>, key: SeriesKey)
    requires DensifiedKey(key)
    ensures Series(Filter(samples, Densified), key) == Series(samples, key)
    ensures Series(Filter(samples, PassesThrough), key) == []
  {
    forall x: Sample | HasKey(KeyOf, key)(x) ensures Densified(x) && !PassesThrough(x) {
      assert KeyOf(x) == key;
      assert x.metric == key.0;
    }
    FilterOfFilter(samples, Densified, HasKey(KeyOf, key), true);
    FilterOfFilter(samples, PassesThrough, HasKey(KeyOf, key), false);
  }

  lemma GroupsKeyed(samples: seq<Sample>)
    ensures Valid(GroupBy(samples, KeyOf)) && Keyed(GroupBy(samples, KeyOf))
  {
    var groups := GroupBy(samples, KeyOf);
    GroupByValid(samples, KeyOf);
    forall i | 0 <= i < |groups| ensures forall x :: x in groups[i].1 ==> KeyOf(x) == groups[i].0 {
      LookupAt(groups, i);
      GroupByLookup(samples, KeyOf, groups[i].0);
    }
  }

  /** Grouping neither loses nor mixes samples: in the output each densified series is its own samples,
      sorted by time and held (or filled). */
  lemma ScrapedSeries(samples: seq<Sample>, end: int, key: SeriesKey)
    requires DensifiedKey(key)
    ensures Series(ScrapeLike(samples, Some(end)), key)
         == if Series(samples, key) == [] then [] else Densify(Series(samples, key), end)
  {
    var passing, kept := Filter(samples, PassesThrough), Filter(samples, Densified);
    var dense := DensifyAll(GroupBy(kept, KeyOf), end);
    SplitSeries(samples, key);
    GroupedSeries(kept, end, key);
    SeriesOfBoth(passing, dense, key);
  }

  lemma SeriesOfBoth(a: seq<Sample>, b: seq<Sample>, key: SeriesKey)
    ensures Series(a + b, key) == Series(a, key) + Series(b, key)
  {
    FilterAppend(a, b, HasKey(KeyOf, key));
  }

  lemma GroupedSeries(samples: seq<Sample>, end: int, key: SeriesKey)
    ensures Series(DensifyAll(GroupBy(samples, KeyOf), end), key)
         == if Series(samples, key) == [] then [] else Densify(Series(samples, key), end)
  {
    GroupsKeyed(samples);
    SeriesOfDensified(GroupBy(samples, KeyOf), end, key);
    GroupByLookup(samples, KeyOf, key);
  }

  // ---------------------------------------------------------------------------- what a reader of the output sees

  /** The sample that counts at an instant: the latest one not after it; of several at one time, the one written
      last. */
  ghost predicate LastWritten(xs: seq<Sample>, t: int, k: nat) {
    && k < |xs| && xs[k].timestampMs <= t
    && forall j :: 0 <= j < |xs| && xs[j].timestampMs <= t ==>
         xs[j].timestampMs < xs[k].timestampMs || (xs[j].timestampMs == xs[k].timestampMs && j <= k)
  }

  /** `series` reads at every instant what the samples `xs`, in whatever order, last wrote by then. */
  ghost predicate Reads(series: seq<Sample>, xs: seq<Sample>) {
    forall t ::
      && (StepAt(series, t) == None <==> forall x :: x in xs ==> x.timestampMs > t)
      && forall k: nat :: LastWritten(xs, t, k) ==> StepAt(series, t) == Some(xs[k].value)
  }

  lemma {:induction false} StepAtInsert(x: Sample, s: seq<Sample>, t: int)
    requires Ordered(s, ByTime)
    ensures StepAt(Insert(x, s, ByTime), t)
      == if x.timestampMs <= t && (forall y :: y in s && y.timestampMs <= t ==> y.timestampMs < x.timestampMs)
         then Some(x.value) else StepAt(s, t)
  {
    if s == [] {
      assert [x] + s == [x] && [x][1..] == [];
    } else if ByTime(x, s[0]) {
      StepAtCons(x, s, t);
      LaterAfter(s, t);
    } else {
      var rest := s[1..];
      assert Ordered(rest, ByTime) by {
        assert forall i :: 0 <= i < |rest| ==> rest[i] == s[i + 1];
      }
      StepAtInsert(x, rest, t);
      StepAtCons(s[0], Insert(x, rest, ByTime), t);
      StepAtCons(s[0], rest, t);
      assert s == [s[0]] + rest;
      LaterAfter(s, t);
    }
  }

  /** Before its first sample an ordered series reads nothing. */
  lemma LaterAfter(s: seq<Sample>, t: int)
    requires Ordered(s, ByTime) && s != []
    ensures StepAt(s, t) == None <==> s[0].timestampMs > t
    ensures s[0].timestampMs > t ==> forall y :: y in s ==> y.timestampMs > t
  {
    assert s == [s[0]] + s[1..];
    StepAtCons(s[0], s[1..], t);
    forall y | y in s ensures ByTime(s[0], y) {
      var i :| 0 <= i < |s| && s[i] == y;
      assert i == 0 || ByTime(s[0], s[i]);
    }
  }

  lemma SortedReadsCons(x: Sample, rest: seq<Sample>)
    requires Reads(Sorted(rest, ByTime), rest)
    ensures Reads(Sorted([x] + rest, ByTime), [x] + rest)
  {
    var xs, s := [x] + rest, Sorted(rest, ByTime);
    assert xs[1..] == rest && Sorted(xs, ByTime) == Insert(x, s, ByTime);
    ByTimeIsOrder();
    SortedOrdered(rest, ByTime);
    SameSamples(rest);
    forall t
      ensures StepAt(Insert(x, s, ByTime), t) == None <==> forall y :: y in xs ==> y.timestampMs > t
      ensures forall k: nat :: LastWritten(xs, t, k) ==> StepAt(Insert(x, s, ByTime), t) == Some(xs[k].value)
    {
      StepAtInsert(x, s, t);
      assert x in xs && forall y :: y in xs <==> y == x || y in rest;
      forall k: nat | LastWritten(xs, t, k) ensures StepAt(Insert(x, s, ByTime), t) == Some(xs[k].value) {
        NewestOf(x, rest, t, k);
      }
    }
  }

  lemma NewestOf(x: Sample, rest: seq<Sample>, t: int, k: nat)
    requires LastWritten([x] + rest, t, k)
    ensures k == 0 ==> forall y :: y in rest && y.timestampMs <= t ==> y.timestampMs < x.timestampMs
    ensures k > 0 ==> LastWritten(rest, t, k - 1) && rest[k - 1] in rest && rest[k - 1].timestampMs <= t
    ensures k > 0 && x.timestampMs <= t ==> x.timestampMs <= rest[k - 1].timestampMs
  {
    var xs := [x] + rest;
    assert xs[0] == x;
    if k == 0 {
      forall y | y in rest && y.timestampMs <= t ensures y.timestampMs < x.timestampMs {
        var j :| 0 <= j < |rest| && rest[j] == y;
        assert xs[j + 1] == y;
      }
    } else {
      assert xs[k] == rest[k - 1];
      forall j | 0 <= j < |rest| && rest[j].timestampMs <= t
        ensures rest[j].timestampMs < rest[k - 1].timestampMs
          || (rest[j].timestampMs == rest[k - 1].timestampMs && j <= k - 1)
      {
        assert xs[j + 1] == rest[j];
      }
    }
  }

  lemma SameSamples(xs: seq<Sample>)
    ensures forall x :: x in Sorted(xs, ByTime) <==> x in xs
  {
    SortedPermutes(xs, ByTime);
    forall x ensures x in Sorted(xs, ByTime) <==> x in xs {
      assert x in multiset(Sorted(xs, ByTime)) <==> x in multiset(xs);
    }
  }

  lemma ByTimeIsOrder()
    ensures TotalPreorder(ByTime)
  {
  }

  /** Sorting by time, whatever the order of the samples, keeps what was last written. */
  lemma {:induction false} SortedReads(xs: seq<Sample>)
    ensures Reads(Sorted(xs, ByTime), xs)
  {
    if xs != [] {
      SortedReads(xs[1..]);
      assert xs == [xs[0]] + xs[1..];
      SortedReadsCons(xs[0], xs[1..]);
    }
  }

  lemma ReadsAlike(a: seq<Sample>, b: seq<Sample>, xs: seq<Sample>)
    requires Reads(a, xs) && forall t :: StepAt(b, t) == StepAt(a, t)
    ensures Reads(b, xs)
  {
  }

  ghost predicate NoGap(xs: seq<Sample>) {
    forall i :: 0 <= i < |xs| - 1 ==> 0 <= xs[i + 1].timestampMs - xs[i].timestampMs <= 30_000
  }

  lemma OrderedInTime(xs: seq<Sample>)
    ensures InTimeOrder(Sorted(xs, ByTime))
  {
    ByTimeIsOrder();
    SortedOrdered(xs, ByTime);
    var s := Sorted(xs, ByTime);
    forall i | 0 <= i < |s| - 1 ensures s[i].timestampMs <= s[i + 1].timestampMs { assert ByTime(s[i], s[i + 1]); }
  }

  lemma MetricOfSeries(samples: seq<Sample>, key: SeriesKey)
    ensures forall x :: x in Series(samples, key) ==> x.metric == key.0
  {
    forall x | x in Series(samples, key) ensures x.metric == key.0 {
      assert HasKey(KeyOf, key)(x);
      assert KeyOf(x) == key;
    }
  }

  /** What the output holds of a series that the script holds or fills. */
  lemma OutputSeries(samples: seq<Sample>, end: int, key: SeriesKey)
    requires Series(samples, key) != []
    ensures key.0.PromotionTotal? || key.0.OtherStateful? ==>
      Series(ScrapeLike(samples, Some(end)), key) == Hold(Sorted(Series(samples, key), ByTime), end)
    ensures key.0.EpochTrace? ==>
      Series(ScrapeLike(samples, Some(end)), key) == Fill(Sorted(Series(samples, key), ByTime))
  {
    var ins := Series(samples, key);
    MetricOfSeries(samples, key);
    assert ins[0] in ins;
    if !key.0.Plain? { ScrapedSeries(samples, end, key); }
  }

  lemma HeldReads(ins: seq<Sample>, end: int)
    requires ins != []
    ensures var out := Hold(Sorted(ins, ByTime), end);
      out != [] && NoGap(out) && out[|out| - 1].timestampMs >= end && Reads(out, ins)
  {
    var ordered := Sorted(ins, ByTime);
    OrderedInTime(ins);
    HoldLeavesNoGap(ordered, end);
    SortedReads(ins);
    forall t ensures StepAt(Hold(ordered, end), t) == StepAt(ordered, t) { HoldKeepsStepFunction(ordered, end, t); }
    ReadsAlike(ordered, Hold(ordered, end), ins);
  }

  lemma FilledReads(ins: seq<Sample>)
    requires ins != []
    ensures var out := Fill(Sorted(ins, ByTime));
      && out != [] && NoGap(out) && Reads(out, ins)
      && out[|out| - 1] in ins && forall x :: x in ins ==> x.timestampMs <= out[|out| - 1].timestampMs
  {
    var ordered := Sorted(ins, ByTime);
    OrderedInTime(ins);
    FillDense(ordered);
    DenseNoGap(Fill(ordered));
    SortedReads(ins);
    forall t ensures StepAt(Fill(ordered), t) == StepAt(ordered, t) { FillStep(ordered, t); }
    ReadsAlike(ordered, Fill(ordered), ins);
    SameSamples(ins);
    assert ordered[|ordered| - 1] in ordered;
    LatestLast(ins);
  }

  /** A stateful series of the output, read off the input samples: no gap over 30 s, up to the end of the run, and at
      every instant the value last written by then. */
  lemma StatefulSeriesHeld(samples: seq<Sample>, end: int, key: SeriesKey)
    requires (key.0.PromotionTotal? || key.0.OtherStateful?) && Series(samples, key) != []
    ensures var out := Series(ScrapeLike(samples, Some(end)), key);
      out != [] && NoGap(out) && out[|out| - 1].timestampMs >= end && Reads(out, Series(samples, key))
  {
    OutputSeries(samples, end, key);
    HeldReads(Series(samples, key), end);
  }

  /** An epoch trace of the output: the same, up to its own last sample. */
  lemma EpochTraceFilled(samples: seq<Sample>, end: int, key: SeriesKey)
    requires key.0.EpochTrace? && Series(samples, key) != []
    ensures var out, ins := Series(ScrapeLike(samples, Some(end)), key), Series(samples, key);
      && out != [] && NoGap(out) && Reads(out, ins)
      && out[|out| - 1] in ins && forall x :: x in ins ==> x.timestampMs <= out[|out| - 1].timestampMs
  {
    OutputSeries(samples, end, key);
    FilledReads(Series(samples, key));
  }

  lemma LatestLast(xs: seq<Sample>)
    requires xs != []
    ensures var s := Sorted(xs, ByTime); forall x :: x in xs ==> x.timestampMs <= s[|s| - 1].timestampMs
  {
    ByTimeIsOrder();
    SortedOrdered(xs, ByTime);
    SameSamples(xs);
    var s := Sorted(xs, ByTime);
    forall x | x in xs ensures x.timestampMs <= s[|s| - 1].timestampMs {
      var i :| 0 <= i < |s| && s[i] == x;
      assert i == |s| - 1 || ByTime(s[i], s[|s| - 1]);
    }
  }

  predicate IsPlain(s: Sample) { s.metric.Plain? }

  lemma {:induction false} NoPlainDensified(groups: Groups<SeriesKey, Sample>, end: int)
    requires Keyed(groups) && forall i :: 0 <= i < |groups| ==> !groups[i].0.0.Plain?
    ensures Filter(DensifyAll(groups, end), IsPlain) == []
  {
    if groups != [] {
      var own := groups[0];
      assert forall i :: 0 <= i < |groups[1..]| ==> groups[1..][i] == groups[i + 1];
      NoPlainDensified(groups[1..], end);
      if own.1 != [] {
        DensifyOneKey(own.1, end, own.0);
        forall x | x in Densify(own.1, end) ensures !IsPlain(x) {
          assert KeyOf(x) == own.0;
          assert x.metric == own.0.0;
        }
        FilterUniform(Densify(own.1, end), IsPlain, false);
      }
      FilterAppend(if own.1 == [] then [] else Densify(own.1, end), DensifyAll(groups[1..], end), IsPlain);
    }
  }

  lemma GroupNotPlain(kept: seq<Sample>, groups: Groups<SeriesKey, Sample>, i: nat)
    requires groups == GroupBy(kept, KeyOf) && i < |groups| && Valid(groups) && forall x :: x in kept ==> Densified(x)
    ensures !groups[i].0.0.Plain?
  {
    LookupAt(groups, i);
    GroupByLookup(kept, KeyOf, groups[i].0);
    var x := groups[i].1[0];
    assert x in Filter(kept, HasKey(KeyOf, groups[i].0));
    assert KeyOf(x) == groups[i].0 && x in kept;
  }

  lemma PlainPasses(samples: seq<Sample>)
    ensures Filter(Filter(samples, PassesThrough), IsPlain) == Filter(samples, IsPlain)
  {
    FilterOfFilter(samples, PassesThrough, IsPlain, true);
  }

  lemma NoPlainGrouped(kept: seq<Sample>, end: int)
    requires forall x :: x in kept ==> Densified(x)
    ensures Filter(DensifyAll(GroupBy(kept, KeyOf), end), IsPlain) == []
  {
    var groups := GroupBy(kept, KeyOf);
    GroupsKeyed(kept);
    forall i | 0 <= i < |groups| ensures !groups[i].0.0.Plain? { GroupNotPlain(kept, groups, i); }
    NoPlainDensified(groups, end);
  }

  /** Every other metric passes through as it is; without a run end everything does. */
  lemma PlainUnchanged(samples: seq<Sample>, end: int)
    ensures Filter(ScrapeLike(samples, Some(end)), IsPlain) == Filter(samples, IsPlain)
    ensures ScrapeLike(samples, None) == samples
  {
    var passing, kept := Filter(samples, PassesThrough), Filter(samples, Densified);
    NoPlainGrouped(kept, end);
    FilterAppend(passing, DensifyAll(GroupBy(kept, KeyOf), end), IsPlain);
    PlainPasses(samples);
  }

  lemma PrefixGrows(samples: seq<Sample>, i: nat, keep: Sample -> bool)
    requires i < |samples|
    ensures Filter(samples[..i + 1], keep) == if keep(samples[i]) then Filter(samples[..i], keep) + [samples[i]]
      else Filter(samples[..i], keep)
  {
    assert samples[..i + 1] == samples[..i] + [samples[i]];
    FilterSnoc(samples[..i], samples[i], keep);
  }

  method GroupSeries(samples: seq<Sample>) returns (passthrough: seq<Sample>, grouped: Groups<SeriesKey, Sample>)
    ensures passthrough == Filter(samples, PassesThrough)
    ensures grouped == GroupBy(Filter(samples, Densified), KeyOf)
  {
    passthrough, grouped := [], [];
    for i := 0 to |samples|
      invariant passthrough == Filter(samples[..i], PassesThrough)
      invariant grouped == GroupBy(Filter(samples[..i], Densified), KeyOf)
    {
      PrefixGrows(samples, i, PassesThrough);
      PrefixGrows(samples, i, Densified);
      GroupBySnoc(Filter(samples[..i], Densified), samples[i], KeyOf);
      if Densified(samples[i]) {
        grouped := Append(grouped, KeyOf(samples[i]), samples[i]);
      } else {
        passthrough := passthrough + [samples[i]];
      }
    }
    assert samples[..|samples|] == samples;
  }

  method DensifyGroups(grouped: Groups<SeriesKey, Sample>, end: int) returns (output: seq<Sample>)
    requires Valid(grouped) && Keyed(grouped)
    ensures output == DensifyAll(grouped, end)
  {
    output := [];
    for i := |grouped| downto 0
      invariant output == DensifyAll(grouped[i..], end)
    {
      var ordered := Sorted(grouped[i].1, ByTime);
      var series;
      assert grouped[i].1[0] in grouped[i].1;
      if Stateful(grouped[i].0.0) {
        series := HoldSeriesUntil(ordered, end);
      } else {
        series := FillSeriesBetweenSamples(ordered);
      }
      assert grouped[i..][1..] == grouped[i + 1..];
      output := series + output;
    }
  }

  method ScrapeLikeSamples(samples: seq<Sample>, runEnd: Option<int>) returns (output: seq<Sample>)
    ensures output == ScrapeLike(samples, runEnd)
  {
    if runEnd.None? { return samples; }
    var passthrough, grouped := GroupSeries(samples);
    GroupsKeyed(Filter(samples, Densified));
    var densified := DensifyGroups(grouped, runEnd.value);
    output := passthrough + densified;
  }
}

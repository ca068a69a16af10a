/** Densification of sparse samples on a 30 s grid (scripts/export_lifecycle_prometheus_backfill.py):
    `_fill_series_between_samples` and `_hold_series_until` refine the last-value-held step function. */
module SeriesHold {
  import opened ReplayEvents

  const CADENCE_MS := 30_000

  /** A metric by its name; the script lists the stateful metrics and the epoch traces by name. */
  datatype Metric = PromotionTotal | OtherStateful(name: string) | EpochTrace(name: string) | Plain(name: string)

  datatype Sample = Sample(metric: Metric, labels: map<string, string>, value: real, timestampMs: int)

  /** The next point of the grid strictly after t; `/` is Python's floor division here, also below zero. */
  function NextCadence(t: int): int {
    (t / CADENCE_MS + 1) * CADENCE_MS
  }

  function At(s: Sample, t: int): Sample { s.(timestampMs := t) }

  /** Copies of a sample at t, t + 30 s, ... as long as they stay before `next`. */
  function Beats(s: Sample, t: int, next: int): seq<Sample>
    decreases next - t
  {
    if t < next then [At(s, t)] + Beats(s, t + CADENCE_MS, next) else []
  }

  function Segment(s: Sample, next: int): seq<Sample> {
    [s] + Beats(s, NextCadence(s.timestampMs), next)
  }

  function Fill(samples: seq<Sample>): seq<Sample> {
    if |samples| <= 1 then samples else Segment(samples[0], samples[1].timestampMs) + Fill(samples[1..])
  }

  function Hold(samples: seq<Sample>, end: int): seq<Sample>
    requires samples != []
  {
    if |samples| == 1 then
      Segment(samples[0], end) + if samples[0].timestampMs < end then [At(samples[0], end)] else []
    else Segment(samples[0], samples[1].timestampMs) + Hold(samples[1..], end)
  }

  // ---------------------------------------------------------------------------- the loops

  method FillSeriesBetweenSamples(samples: seq<Sample>) returns (output: seq<Sample>)
    ensures output == Fill(samples)
  {
    output := [];
    for i := 0 to |samples|
      invariant output + Fill(samples[i..]) == Fill(samples)
    {
      ghost var before := output;
      output := output + [samples[i]];
      if i + 1 < |samples| {
        var next := samples[i + 1].timestampMs;
        output := Repeat(output, samples[i], NextCadence(samples[i].timestampMs), next);
        FillUnfold(before, samples, i);
        assert output == before + Segment(samples[i], next);
      }
    }
  }

  lemma FillUnfold(before: seq<Sample>, samples: seq<Sample>, i: nat)
    requires i + 1 < |samples|
    ensures before + Fill(samples[i..])
      == (before + Segment(samples[i], samples[i + 1].timestampMs)) + Fill(samples[i + 1..])
  {
    assert samples[i..][1..] == samples[i + 1..];
  }

  /** The sample that marks the end time. */
  function EndTail(last: Sample, end: int): seq<Sample> {
    if last.timestampMs < end then [At(last, end)] else []
  }

  lemma HoldStep(before: seq<Sample>, samples: seq<Sample>, end: int, i: nat)
    requires i < |samples| && before + Hold(samples[i..], end) == Hold(samples, end)
    ensures i + 1 < |samples| ==>
      (before + Segment(samples[i], samples[i + 1].timestampMs)) + Hold(samples[i + 1..], end) == Hold(samples, end)
    ensures i + 1 == |samples| ==> (before + Segment(samples[i], end)) + EndTail(samples[i], end) == Hold(samples, end)
  {
    if i + 1 < |samples| {
      assert samples[i..][1..] == samples[i + 1..];
    } else {
      assert samples[i..] == [samples[i]];
    }
  }

  /** The inner loop shared by both functions. */
  method Repeat(prefix: seq<Sample>, s: Sample, start: int, next: int) returns (output: seq<Sample>)
    ensures output == prefix + Beats(s, start, next)
  {
    output := prefix;
    var t := start;
    while t < next
      invariant output + Beats(s, t, next) == prefix + Beats(s, start, next)
      decreases next - t
    {
      output := output + [At(s, t)];
      t := t + CADENCE_MS;
    }
  }

  method HoldSeriesUntil(samples: seq<Sample>, end: int) returns (output: seq<Sample>)
    requires samples != []
    ensures output == Hold(samples, end)
  {
    output := [];
    var last := samples[|samples| - 1];
    ghost var tail := EndTail(last, end);
    for i := 0 to |samples|
      invariant i < |samples| ==> output + Hold(samples[i..], end) == Hold(samples, end)
      invariant i == |samples| ==> output + tail == Hold(samples, end)
    {
      ghost var before := output;
      var start := samples[i].timestampMs;
      var next := if i + 1 < |samples| then samples[i + 1].timestampMs else end;
      output := output + [samples[i]];
      if next > start {
        output := Repeat(output, samples[i], NextCadence(start), next);
      }
      assert output == before + Segment(samples[i], next);
      HoldStep(before, samples, end, i);
    }
    if last.timestampMs < end { output := output + [At(last, end)]; }
  }

  // ---------------------------------------------------------------------------- density

  lemma NextCadenceBounds(t: int)
    ensures t < NextCadence(t) <= t + CADENCE_MS
    ensures t % CADENCE_MS == 0 ==> NextCadence(t) == t + CADENCE_MS
    ensures NextCadence(t) % CADENCE_MS == 0
  {
  }

  /** No grid point lies strictly between consecutive samples. */
  ghost predicate Dense(xs: seq<Sample>) {
    forall i :: 0 <= i < |xs| - 1 ==> xs[i + 1].timestampMs <= NextCadence(xs[i].timestampMs)
  }

  ghost predicate InTimeOrder(xs: seq<Sample>) {
    forall i :: 0 <= i < |xs| - 1 ==> xs[i].timestampMs <= xs[i + 1].timestampMs
  }

  /** Appending what starts at the end of a segment keeps density and order. */
  lemma {:induction false} BeatsDense(s: Sample, t: int, next: int, rest: seq<Sample>)
    requires t % CADENCE_MS == 0 && rest != [] && rest[0].timestampMs == next && Dense(rest)
    ensures Dense(Beats(s, t, next) + rest)
    ensures InTimeOrder(rest) ==> InTimeOrder(Beats(s, t, next) + rest)
    ensures (Beats(s, t, next) + rest)[0].timestampMs == if t < next then t else next
    decreases next - t
  {
    NextCadenceBounds(t);
    if t < next {
      BeatsDense(s, t + CADENCE_MS, next, rest);
      var tail := Beats(s, t + CADENCE_MS, next) + rest;
      assert Beats(s, t, next) + rest == [At(s, t)] + tail;
      DenseCons(At(s, t), tail);
    } else {
      assert Beats(s, t, next) + rest == rest;
    }
  }

  lemma DenseCons(s: Sample, rest: seq<Sample>)
    requires rest != [] && Dense(rest) && rest[0].timestampMs <= NextCadence(s.timestampMs)
    ensures Dense([s] + rest)
    ensures InTimeOrder(rest) && s.timestampMs <= rest[0].timestampMs ==> InTimeOrder([s] + rest)
  {
    var xs := [s] + rest;
    forall i | 0 <= i < |xs| - 1 ensures xs[i + 1].timestampMs <= NextCadence(xs[i].timestampMs) {
      if i > 0 { assert xs[i] == rest[i - 1] && xs[i + 1] == rest[i - 1 + 1]; }
    }
    if InTimeOrder(rest) && s.timestampMs <= rest[0].timestampMs {
      forall i | 0 <= i < |xs| - 1 ensures xs[i].timestampMs <= xs[i + 1].timestampMs {
        if i > 0 { assert xs[i] == rest[i - 1] && xs[i + 1] == rest[i - 1 + 1]; }
      }
    }
  }

  lemma SegmentDense(s: Sample, rest: seq<Sample>)
    requires rest != [] && Dense(rest)
    ensures Dense(Segment(s, rest[0].timestampMs) + rest)
    ensures InTimeOrder(rest) && s.timestampMs <= rest[0].timestampMs
      ==> InTimeOrder(Segment(s, rest[0].timestampMs) + rest)
  {
    var next, first := rest[0].timestampMs, NextCadence(s.timestampMs);
    NextCadenceBounds(s.timestampMs);
    BeatsDense(s, first, next, rest);
    var tail := Beats(s, first, next) + rest;
    assert Segment(s, next) + rest == [s] + tail;
    DenseCons(s, tail);
  }

  /** Filling leaves no gap over one cadence and keeps time order. */
  lemma {:induction false} FillDense(samples: seq<Sample>)
    ensures samples != [] ==> Fill(samples) != [] && Fill(samples)[0] == samples[0]
    ensures samples != [] ==> Fill(samples)[|Fill(samples)| - 1] == samples[|samples| - 1]
    ensures Dense(Fill(samples))
    ensures InTimeOrder(samples) ==> InTimeOrder(Fill(samples))
  {
    if |samples| > 1 {
      FillDense(samples[1..]);
      SegmentDense(samples[0], Fill(samples[1..]));
      if InTimeOrder(samples) {
        assert samples[0].timestampMs <= samples[0 + 1].timestampMs;
        TailInOrder(samples);
      }
    }
  }

  lemma TailInOrder(samples: seq<Sample>)
    requires InTimeOrder(samples) && samples != []
    ensures InTimeOrder(samples[1..])
  {
    forall i | 0 <= i < |samples[1..]| - 1 ensures samples[1..][i].timestampMs <= samples[1..][i + 1].timestampMs {
      assert samples[i + 1].timestampMs <= samples[i + 1 + 1].timestampMs;
    }
  }

  /** The series with an end sentinel, when it stops before the end. */
  function WithSentinel(samples: seq<Sample>, end: int): seq<Sample>
    requires samples != []
  {
    var last := samples[|samples| - 1];
    if last.timestampMs < end then samples + [At(last, end)] else samples
  }

  /** Holding is filling the series after adding the sentinel. */
  lemma {:induction false} HoldIsFill(samples: seq<Sample>, end: int)
    requires samples != []
    ensures Hold(samples, end) == Fill(WithSentinel(samples, end))
  {
    if |samples| == 1 {
      var s := samples[0];
      if s.timestampMs < end {
        var both := samples + [At(s, end)];
        assert both[1..] == [At(s, end)];
      } else {
        NextCadenceBounds(s.timestampMs);
        assert Segment(s, end) + [] == [s] == samples;
      }
    } else {
      HoldIsFill(samples[1..], end);
      assert WithSentinel(samples, end)[1..] == WithSentinel(samples[1..], end);
    }
  }

  /** A held series has no gap over one cadence up to the end time, stays sorted, and reaches the end. */
  lemma HoldLeavesNoGap(samples: seq<Sample>, end: int)
    requires samples != [] && InTimeOrder(samples)
    ensures InTimeOrder(Hold(samples, end))
    ensures forall i :: 0 <= i < |Hold(samples, end)| - 1 ==>
      Hold(samples, end)[i + 1].timestampMs - Hold(samples, end)[i].timestampMs <= CADENCE_MS
    ensures Hold(samples, end) != [] && Hold(samples, end)[0] == samples[0]
    ensures Hold(samples, end)[|Hold(samples, end)| - 1].timestampMs >= end
  {
    HoldIsFill(samples, end);
    SentinelInOrder(samples, end);
    FillDense(WithSentinel(samples, end));
    DenseNoGap(Hold(samples, end));
  }

  lemma SentinelInOrder(samples: seq<Sample>, end: int)
    requires samples != [] && InTimeOrder(samples)
    ensures InTimeOrder(WithSentinel(samples, end))
  {
    var xs := WithSentinel(samples, end);
    forall i | 0 <= i < |xs| - 1 ensures xs[i].timestampMs <= xs[i + 1].timestampMs {
      if i + 1 < |samples| { assert samples[i].timestampMs <= samples[i + 1].timestampMs; }
    }
  }

  lemma DenseNoGap(xs: seq<Sample>)
    requires Dense(xs)
    ensures forall i :: 0 <= i < |xs| - 1 ==> xs[i + 1].timestampMs - xs[i].timestampMs <= CADENCE_MS
  {
    forall i | 0 <= i < |xs| - 1 ensures xs[i + 1].timestampMs - xs[i].timestampMs <= CADENCE_MS {
      NextCadenceBounds(xs[i].timestampMs);
    }
  }

  lemma {:induction false} FillFixed(xs: seq<Sample>)
    requires Dense(xs)
    ensures Fill(xs) == xs
  {
    if |xs| > 1 {
      forall i | 0 <= i < |xs[1..]| - 1 ensures xs[1..][i + 1].timestampMs <= NextCadence(xs[1..][i].timestampMs) {
        assert xs[i + 1 + 1].timestampMs <= NextCadence(xs[i + 1].timestampMs);
      }
      FillFixed(xs[1..]);
      assert xs[0 + 1].timestampMs <= NextCadence(xs[0].timestampMs);
      assert Segment(xs[0], xs[1].timestampMs) == [xs[0]];
    }
  }

  /** Filling twice is filling once, and so is holding: for every input, sorted or not. */
  lemma FillIdempotent(samples: seq<Sample>)
    ensures Fill(Fill(samples)) == Fill(samples)
  {
    FillDense(samples);
    FillFixed(Fill(samples));
  }

  lemma HeldReachesEnd(samples: seq<Sample>, end: int)
    requires samples != []
    ensures Hold(samples, end) != [] && Dense(Hold(samples, end))
    ensures Hold(samples, end)[|Hold(samples, end)| - 1].timestampMs >= end
  {
    HoldIsFill(samples, end);
    FillDense(WithSentinel(samples, end));
  }

  lemma HoldIdempotent(samples: seq<Sample>, end: int)
    requires samples != []
    ensures Hold(samples, end) != [] && Hold(Hold(samples, end), end) == Hold(samples, end)
  {
    HeldReachesEnd(samples, end);
    HoldIsFill(Hold(samples, end), end);
    FillFixed(Hold(samples, end));
  }

  // ---------------------------------------------------------------------------- inputs kept

  /** Positions in b of the elements of a, in increasing order. */
  ghost predicate Embeds(a: seq<Sample>, b: seq<Sample>, at: seq<nat>) {
    && |at| == |a|
    && (forall i :: 0 <= i < |at| ==> at[i] < |b| && b[at[i]] == a[i])
    && (forall i, j :: 0 <= i < j < |at| ==> at[i] < at[j])
  }

  lemma EmbedsBehind(x: Sample, mid: seq<Sample>, a: seq<Sample>, b: seq<Sample>, at: seq<nat>)
    returns (shifted: seq<nat>)
    requires Embeds(a, b, at)
    ensures Embeds([x] + a, ([x] + mid) + b, shifted)
  {
    var offset := 1 + |mid|;
    shifted := [0] + seq(|at|, i requires 0 <= i < |at| => at[i] + offset);
    forall i | 0 <= i < |shifted| ensures shifted[i] < offset + |b| && (([x] + mid) + b)[shifted[i]] == ([x] + a)[i] {
      if i > 0 { assert (([x] + mid) + b)[at[i - 1] + offset] == b[at[i - 1]]; }
    }
  }

  lemma {:induction false} FillKeepsInputs(samples: seq<Sample>) returns (at: seq<nat>)
    ensures Embeds(samples, Fill(samples), at)
  {
    if samples == [] {
      at := [];
    } else if |samples| == 1 {
      at := [0];
    } else {
      var rest := FillKeepsInputs(samples[1..]);
      var s, next := samples[0], samples[1].timestampMs;
      at := EmbedsBehind(s, Beats(s, NextCadence(s.timestampMs), next), samples[1..], Fill(samples[1..]), rest);
      assert samples == [s] + samples[1..];
    }
  }

  /** Every input sample is still in the held series, in order. */
  lemma HoldKeepsInputs(samples: seq<Sample>, end: int) returns (at: seq<nat>)
    requires samples != []
    ensures Embeds(samples, Hold(samples, end), at)
  {
    HoldIsFill(samples, end);
    var all := FillKeepsInputs(WithSentinel(samples, end));
    at := all[..|samples|];
  }

  // ---------------------------------------------------------------------------- no duplicate timestamps

  ghost predicate StrictOrder(xs: seq<Sample>) {
    forall i :: 0 <= i < |xs| - 1 ==> xs[i].timestampMs < xs[i + 1].timestampMs
  }

  lemma StrictCons(s: Sample, rest: seq<Sample>)
    requires StrictOrder(rest) && (rest != [] ==> s.timestampMs < rest[0].timestampMs)
    ensures StrictOrder([s] + rest)
  {
  }

  lemma StrictTail(samples: seq<Sample>)
    requires StrictOrder(samples) && samples != []
    ensures StrictOrder(samples[1..])
  {
    forall i | 0 <= i < |samples[1..]| - 1 ensures samples[1..][i].timestampMs < samples[1..][i + 1].timestampMs {
      assert samples[i + 1].timestampMs < samples[i + 1 + 1].timestampMs;
    }
  }

  lemma {:induction false} BeatsStrict(s: Sample, t: int, next: int, rest: seq<Sample>)
    requires rest != [] && rest[0].timestampMs == next && StrictOrder(rest)
    ensures StrictOrder(Beats(s, t, next) + rest)
    ensures (Beats(s, t, next) + rest)[0].timestampMs == if t < next then t else next
    decreases next - t
  {
    if t < next {
      BeatsStrict(s, t + CADENCE_MS, next, rest);
      var tail := Beats(s, t + CADENCE_MS, next) + rest;
      assert Beats(s, t, next) + rest == [At(s, t)] + tail;
      StrictCons(At(s, t), tail);
    } else {
      assert Beats(s, t, next) + rest == rest;
    }
  }

  lemma {:induction false} FillStrict(samples: seq<Sample>)
    requires StrictOrder(samples)
    ensures StrictOrder(Fill(samples))
  {
    if |samples| > 1 {
      var s, later := samples[0], samples[1..];
      assert s.timestampMs < samples[0 + 1].timestampMs;
      StrictTail(samples);
      FillStrict(later);
      FillDense(later);
      BeatsStrict(s, NextCadence(s.timestampMs), later[0].timestampMs, Fill(later));
      NextCadenceBounds(s.timestampMs);
      StrictCons(s, Beats(s, NextCadence(s.timestampMs), later[0].timestampMs) + Fill(later));
      FillCons(s, later);
      assert samples == [s] + later;
    }
  }

  lemma {:induction false} StrictFar(xs: seq<Sample>, i: nat, j: nat)
    requires StrictOrder(xs) && i < j < |xs|
    ensures xs[i].timestampMs < xs[j].timestampMs
    decreases j
  {
    assert xs[j - 1].timestampMs < xs[j - 1 + 1].timestampMs;
    if i < j - 1 { StrictFar(xs, i, j - 1); }
  }

  /** A held series has no duplicate timestamp and no step back exactly when its input has none. */
  lemma HoldStrictIff(samples: seq<Sample>, end: int)
    requires samples != []
    ensures StrictOrder(Hold(samples, end)) <==> StrictOrder(samples)
  {
    if StrictOrder(samples) {
      HoldIsFill(samples, end);
      forall i | 0 <= i < |WithSentinel(samples, end)| - 1
        ensures WithSentinel(samples, end)[i].timestampMs < WithSentinel(samples, end)[i + 1].timestampMs
      {
        if i + 1 < |samples| { assert samples[i].timestampMs < samples[i + 1].timestampMs; }
      }
      FillStrict(WithSentinel(samples, end));
    }
    if StrictOrder(Hold(samples, end)) {
      var at := HoldKeepsInputs(samples, end);
      forall i | 0 <= i < |samples| - 1 ensures samples[i].timestampMs < samples[i + 1].timestampMs {
        StrictFar(Hold(samples, end), at[i], at[i + 1]);
      }
    }
  }

  // ---------------------------------------------------------------------------- the step function

  /** Value of the last sample at or before t in a time-ordered series. */
  function StepAt(xs: seq<Sample>, t: int): Option<real> {
    if xs == [] || xs[0].timestampMs > t then None
    else match StepAt(xs[1..], t) case None => Some(xs[0].value) case Some(v) => Some(v)
  }

  /** `StepAt` reads off the sample with the largest index whose time is at most t. */
  lemma {:induction false} StepAtIsLast(xs: seq<Sample>, t: int, k: nat)
    requires InTimeOrder(xs) && k < |xs| && xs[k].timestampMs <= t
    requires k + 1 < |xs| ==> t < xs[k + 1].timestampMs
    ensures StepAt(xs, t) == Some(xs[k].value)
  {
    TailInOrder(xs);
    if k > 0 {
      StepAtIsLast(xs[1..], t, k - 1);
      FirstAtMost(xs, k);
    }
  }

  lemma {:induction false} FirstAtMost(xs: seq<Sample>, k: nat)
    requires InTimeOrder(xs) && k < |xs|
    ensures xs[0].timestampMs <= xs[k].timestampMs
  {
    if k > 0 {
      FirstAtMost(xs, k - 1);
      assert xs[k - 1].timestampMs <= xs[k - 1 + 1].timestampMs;
    }
  }

  /** Copies of a sample do not change the value read before `next`, nor what is read after it. */
  lemma {:induction false} BeatsStep(s: Sample, t: int, next: int, rest: seq<Sample>, at: int)
    requires rest != [] && rest[0].timestampMs == next
    ensures var read := StepAt(Beats(s, t, next) + rest, at);
      if at >= next then read == StepAt(rest, at) else read == None || read == Some(s.value)
    decreases next - t
  {
    if t < next {
      BeatsStep(s, t + CADENCE_MS, next, rest, at);
      var tail := Beats(s, t + CADENCE_MS, next) + rest;
      assert Beats(s, t, next) + rest == [At(s, t)] + tail;
      assert ([At(s, t)] + tail)[1..] == tail;
    } else {
      assert Beats(s, t, next) + rest == rest;
    }
  }

  lemma StepAtCons(x: Sample, rest: seq<Sample>, t: int)
    ensures StepAt([x] + rest, t) ==
      if x.timestampMs > t then None else match StepAt(rest, t) case None => Some(x.value) case Some(v) => Some(v)
  {
    assert ([x] + rest)[1..] == rest;
  }

  lemma FillCons(s: Sample, later: seq<Sample>)
    requires later != []
    ensures Fill([s] + later) == [s] + (Beats(s, NextCadence(s.timestampMs), later[0].timestampMs) + Fill(later))
  {
    assert ([s] + later)[1..] == later;
    PrependJoined(s, Beats(s, NextCadence(s.timestampMs), later[0].timestampMs), Fill(later));
  }

  lemma PrependJoined<T>(x: T, a: seq<T>, b: seq<T>)
    ensures ([x] + a) + b == [x] + (a + b)
  {
  }

  lemma {:induction false} FillStep(samples: seq<Sample>, t: int)
    requires InTimeOrder(samples)
    ensures StepAt(Fill(samples), t) == StepAt(samples, t)
  {
    if |samples| > 1 {
      var s, later := samples[0], samples[1..];
      TailInOrder(samples);
      FillStep(later, t);
      assert samples == [s] + later && s.timestampMs <= samples[0 + 1].timestampMs;
      StepBeforeFill(s, later, t);
    }
  }

  lemma StepBeforeFill(s: Sample, later: seq<Sample>, t: int)
    requires later != [] && s.timestampMs <= later[0].timestampMs && StepAt(Fill(later), t) == StepAt(later, t)
    ensures StepAt(Fill([s] + later), t) == StepAt([s] + later, t)
  {
    var next, rest := later[0].timestampMs, Fill(later);
    FillCons(s, later);
    FillDense(later);
    BeatsStep(s, NextCadence(s.timestampMs), next, rest, t);
    StepAtCons(s, Beats(s, NextCadence(s.timestampMs), next) + rest, t);
    StepAtCons(s, later, t);
  }

  lemma {:induction false} SentinelStep(samples: seq<Sample>, end: int, t: int)
    requires samples != []
    ensures StepAt(WithSentinel(samples, end), t) == StepAt(samples, t)
  {
    if |samples| == 1 {
      assert samples[1..] == [];
      if samples[0].timestampMs < end {
        var sentinel := [At(samples[0], end)];
        assert WithSentinel(samples, end)[1..] == sentinel && sentinel[1..] == [];
        assert StepAt(sentinel, t) == if end > t then None else Some(samples[0].value);
      }
    } else {
      SentinelStep(samples[1..], end, t);
      assert WithSentinel(samples, end)[1..] == WithSentinel(samples[1..], end);
    }
  }

  /** At every instant the held series shows the value the input last had: holding refines, never alters. */
  lemma HoldKeepsStepFunction(samples: seq<Sample>, end: int, t: int)
    requires samples != [] && InTimeOrder(samples)
    ensures StepAt(Hold(samples, end), t) == StepAt(samples, t)
  {
    HoldIsFill(samples, end);
    var xs := WithSentinel(samples, end);
    assert InTimeOrder(xs) by {
      forall i | 0 <= i < |xs| - 1 ensures xs[i].timestampMs <= xs[i + 1].timestampMs {
        if i + 1 < |samples| { assert samples[i].timestampMs <= samples[i + 1].timestampMs; }
      }
    }
    FillStep(xs, t);
    SentinelStep(samples, end, t);
  }
}

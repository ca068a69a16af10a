/** The promotion counter twice: backfilled from the cycle records
    (`_promotion_counter_samples`, scripts/export_lifecycle_prometheus_backfill.py) and counted live from API
    events (`_record_lifecycle_promotion_status`, src/iqa/api/main.py). */
module PromotionCounters {
  import opened ReplayEvents
  import opened Sorting
  import opened Groups
  import opened SeriesHold
  import opened ScrapeSeries

  datatype RunId = RunId(scenarioId: string, lifecycleRunId: string)

  datatype Role = Localization | Classification

  function RoleName(role: Role): string {
    if role == Localization then "localization" else "classification"
  }

  /** A cycle with its resolved timestamp; an absent status is the empty string. */
  datatype CycleRecord = CycleRecord(cycleId: string, timestampMs: int, localizationStatus: string,
                                     classificationStatus: string)

  type Labels = map<string, string>

  /** How a counter of a run is labelled by role and status. */
  type Labelling = (Role, string) -> Labels

  function CounterLabels(run: RunId): Labelling {
    (role: Role, status: string) =>
      map["scenario_id" := run.scenarioId, "lifecycle_run_id" := run.lifecycleRunId, "role" := RoleName(role),
          "status" := status]
  }

  /** Role and status can be read back from the labels. */
  ghost predicate Separates(l: Labelling) {
    forall role, status, role', status' :: l(role, status) == l(role', status') ==> role == role' && status == status'
  }

  /** Two counters of any two runs share their labels only if they are one counter of one run. */
  lemma CountersNeverShared(run: RunId, role: Role, status: string, run': RunId, role': Role, status': string)
    ensures CounterLabels(run)(role, status) == CounterLabels(run')(role', status')
       <==> run == run' && role == role' && status == status'
  {
    var a, b := CounterLabels(run)(role, status), CounterLabels(run')(role', status');
    if a == b {
      assert a["scenario_id"] == b["scenario_id"] && a["lifecycle_run_id"] == b["lifecycle_run_id"];
      assert a["status"] == b["status"] && a["role"] == b["role"];
      assert RoleName(role)[0] == (if role == Localization then 'l' else 'c');
      assert RoleName(role')[0] == (if role' == Localization then 'l' else 'c');
    }
  }

  lemma CounterLabelsSeparate(run: RunId)
    ensures Separates(CounterLabels(run))
  {
    var l := CounterLabels(run);
    forall role, status, role', status' | l(role, status) == l(role', status')
      ensures role == role' && status == status' {
      CountersNeverShared(run, role, status, run, role', status');
    }
  }

  /** `values.get(key, 0)` */
  function Count(values: map<Labels, nat>, key: Labels): nat {
    if key in values then values[key] else 0
  }

  // ---------------------------------------------------------------------------- backfill

  datatype Counters = Counters(values: map<Labels, nat>, initialized: set<Labels>)

  function CounterSample(labels: Labels, value: nat, t: int): Sample {
    Sample(PromotionTotal, labels, value as real, t)
  }

  function EmitRole(key: Labels, t: int, c: Counters): (seq<Sample>, Counters) {
    var next := Count(c.values, key) + 1;
    ((if key in c.initialized then [] else [CounterSample(key, 0, t - 1000)]) + [CounterSample(key, next, t)],
     Counters(c.values[key := next], c.initialized + {key}))
  }

  function EmitStatus(l: Labelling, role: Role, cycle: CycleRecord, c: Counters): (seq<Sample>, Counters) {
    if StatusOf(cycle, role) == "" then ([], c) else EmitRole(l(role, StatusOf(cycle, role)), cycle.timestampMs, c)
  }

  function EmitCycle(l: Labelling, cycle: CycleRecord, c: Counters): (seq<Sample>, Counters) {
    var first := EmitStatus(l, Localization, cycle, c);
    var second := EmitStatus(l, Classification, cycle, first.1);
    (first.0 + second.0, second.1)
  }

  function EmitAll(l: Labelling, cycles: seq<CycleRecord>): (seq<Sample>, Counters) {
    if cycles == [] then ([], Counters(map[], {}))
    else
      var before := EmitAll(l, cycles[..|cycles| - 1]);
      var last := EmitCycle(l, cycles[|cycles| - 1], before.1);
      (before.0 + last.0, last.1)
  }

  function StatusOf(cycle: CycleRecord, role: Role): string {
    if role == Localization then cycle.localizationStatus else cycle.classificationStatus
  }

  predicate Reports(cycle: CycleRecord, role: Role, status: string) { StatusOf(cycle, role) == status }

  /** The cycles that report a status for a role, in the order of the cycle records. */
  function Reporting(cycles: seq<CycleRecord>, role: Role, status: string): seq<CycleRecord> {
    if cycles == [] then []
    else
      var before, last := Reporting(cycles[..|cycles| - 1], role, status), cycles[|cycles| - 1];
      if Reports(last, role, status) then before + [last] else before
  }

  /** The samples of one counter: 0 one second before the first report, then 1, 2, ... at the reports. */
  function Counted(labels: Labels, reports: seq<CycleRecord>): (r: seq<Sample>)
    ensures |r| == if reports == [] then 0 else |reports| + 1
  {
    if reports == [] then [] else
      seq(|reports| + 1, i requires 0 <= i <= |reports| => CountedAt(labels, reports, i))
  }

  function CountedAt(labels: Labels, reports: seq<CycleRecord>, i: nat): Sample
    requires reports != [] && i <= |reports|
  {
    if i == 0 then CounterSample(labels, 0, reports[0].timestampMs - 1000)
    else CounterSample(labels, i, reports[i - 1].timestampMs)
  }

  /** What the dictionaries know about one counter. */
  ghost predicate Tracks(c: Counters, labels: Labels, n: nat) {
    Count(c.values, labels) == n && (labels in c.initialized <==> n > 0)
  }

  function SeriesOf(samples: seq<Sample>, labels: Labels): seq<Sample> {
    Series(samples, (PromotionTotal, labels))
  }

  lemma EmitRoleSeries(labels: Labels, cycle: CycleRecord, c: Counters, key: Labels, reports: seq<CycleRecord>)
    requires Tracks(c, labels, |reports|)
    ensures var next := if labels == key then reports + [cycle] else reports;
      var (samples, c') := EmitRole(key, cycle.timestampMs, c);
      && Counted(labels, reports) + SeriesOf(samples, labels) == Counted(labels, next)
      && Tracks(c', labels, |next|)
  {
    var (samples, c') := EmitRole(key, cycle.timestampMs, c);
    forall x | x in samples ensures HasKey(KeyOf, (PromotionTotal, labels))(x) == (labels == key) {
      assert KeyOf(x) == (PromotionTotal, key);
      if (PromotionTotal, key) == (PromotionTotal, labels) {
        assert (PromotionTotal, key).1 == (PromotionTotal, labels).1;
      }
    }
    FilterUniform(samples, HasKey(KeyOf, (PromotionTotal, labels)), labels == key);
  }

  lemma EmitStatusSeries(l: Labelling, role: Role, status: string, cycle: CycleRecord, c: Counters, role': Role,
                         reports: seq<CycleRecord>)
    requires Separates(l) && status != "" && Tracks(c, l(role, status), |reports|)
    ensures var labels := l(role, status);
      var next := if role == role' && Reports(cycle, role, status) then reports + [cycle] else reports;
      var (samples, c') := EmitStatus(l, role', cycle, c);
      && Counted(labels, reports) + SeriesOf(samples, labels) == Counted(labels, next)
      && Tracks(c', labels, |next|)
  {
    var status' := StatusOf(cycle, role');
    if status' != "" {
      EmitRoleSeries(l(role, status), cycle, c, l(role', status'), reports);
      assert l(role, status) == l(role', status') ==> role == role' && status == status';
    }
  }

  lemma EmitCycleSeries(l: Labelling, role: Role, status: string, cycle: CycleRecord, c: Counters,
                        reports: seq<CycleRecord>)
    requires Separates(l) && status != "" && Tracks(c, l(role, status), |reports|)
    ensures var labels := l(role, status);
      var next := if Reports(cycle, role, status) then reports + [cycle] else reports;
      var (samples, c') := EmitCycle(l, cycle, c);
      && Counted(labels, reports) + SeriesOf(samples, labels) == Counted(labels, next)
      && Tracks(c', labels, |next|)
  {
    var labels := l(role, status);
    var (first, c1) := EmitStatus(l, Localization, cycle, c);
    var (second, c2) := EmitStatus(l, Classification, cycle, c1);
    EmitStatusSeries(l, role, status, cycle, c, Localization, reports);
    var middle := if role == Localization && Reports(cycle, role, status) then reports + [cycle] else reports;
    EmitStatusSeries(l, role, status, cycle, c1, Classification, middle);
    var next := if Reports(cycle, role, status) then reports + [cycle] else reports;
    SeriesInTwoSteps(labels, Counted(labels, reports), first, Counted(labels, middle), second, Counted(labels, next));
  }

  lemma SeriesInTwoSteps(labels: Labels, a: seq<Sample>, first: seq<Sample>, b: seq<Sample>, second: seq<Sample>,
                         c: seq<Sample>)
    requires a + SeriesOf(first, labels) == b && b + SeriesOf(second, labels) == c
    ensures a + SeriesOf(first + second, labels) == c
  {
    FilterAppend(first, second, HasKey(KeyOf, (PromotionTotal, labels)));
    assert a + (SeriesOf(first, labels) + SeriesOf(second, labels))
      == (a + SeriesOf(first, labels)) + SeriesOf(second, labels);
  }

  /** The backfilled series of a counter, read off the emitted samples of all cycles. */
  lemma {:induction false} EmittedSeries(l: Labelling, cycles: seq<CycleRecord>, role: Role, status: string)
    requires Separates(l) && status != ""
    ensures var reports := Reporting(cycles, role, status);
      && SeriesOf(EmitAll(l, cycles).0, l(role, status)) == Counted(l(role, status), reports)
      && Tracks(EmitAll(l, cycles).1, l(role, status), |reports|)
  {
    if cycles != [] {
      var front, cycle, labels := cycles[..|cycles| - 1], cycles[|cycles| - 1], l(role, status);
      EmittedSeries(l, front, role, status);
      var (before, c) := EmitAll(l, front);
      EmitCycleSeries(l, role, status, cycle, c, Reporting(front, role, status));
      FilterAppend(before, EmitCycle(l, cycle, c).0, HasKey(KeyOf, (PromotionTotal, labels)));
    }
  }

  /** Positions of the cycle records that report a status. */
  ghost function ReportedAt(cycles: seq<CycleRecord>, role: Role, status: string): set<nat> {
    Where(cycles, (c: CycleRecord) => status == if role == Localization then c.localizationStatus
                                                 else c.classificationStatus)
  }

  lemma {:induction false} ReportingCounts(cycles: seq<CycleRecord>, role: Role, status: string)
    ensures |Reporting(cycles, role, status)| == |ReportedAt(cycles, role, status)|
  {
    if cycles == [] {
      assert ReportedAt(cycles, role, status) == {};
    } else {
      var front, last := cycles[..|cycles| - 1], cycles[|cycles| - 1];
      ReportingCounts(front, role, status);
      assert cycles == front + [last];
      WhereSnoc(front, last, (c: CycleRecord) => status == if role == Localization then c.localizationStatus
                                                            else c.classificationStatus);
    }
  }

  /** The backfilled samples of one counter of a run: none when no cycle reports the status, else 0 one second before
      the first report and then the number of reports so far at each, labelled with run, role and status. */
  lemma BackfilledCounter(run: RunId, cycles: seq<CycleRecord>, role: Role, status: string)
    requires status != ""
    ensures var labels, reports := CounterLabels(run)(role, status), Reporting(cycles, role, status);
      var samples := Series(EmitAll(CounterLabels(run), cycles).0, (PromotionTotal, labels));
      && |reports| == |ReportedAt(cycles, role, status)|
      && |samples| == (if reports == [] then 0 else |reports| + 1)
      && (reports != [] ==> samples[0] == Sample(PromotionTotal, labels, 0.0, reports[0].timestampMs - 1000))
      && (forall i :: 0 < i <= |reports| ==>
            samples[i] == Sample(PromotionTotal, labels, i as real, reports[i - 1].timestampMs))
  {
    CounterLabelsSeparate(run);
    EmittedSeries(CounterLabels(run), cycles, role, status);
    ReportingCounts(cycles, role, status);
  }

  // ---------------------------------------------------------------------------- monotone counters

  ghost predicate Rising(xs: seq<Sample>) {
    forall i, j :: 0 <= i < j < |xs| ==> xs[i].value <= xs[j].value
  }

  ghost predicate Chronological(cycles: seq<CycleRecord>) {
    forall i, j :: 0 <= i < j < |cycles| ==> cycles[i].timestampMs <= cycles[j].timestampMs
  }

  lemma {:induction false} FillValues(xs: seq<Sample>, x: Sample)
    requires x in Fill(xs)
    ensures exists y :: y in xs && y.value == x.value
  {
    if |xs| > 1 {
      if x in Fill(xs[1..]) {
        FillValues(xs[1..], x);
        var y :| y in xs[1..] && y.value == x.value;
        assert y in xs;
      } else {
        BeatsCopy(xs[0], NextCadence(xs[0].timestampMs), xs[1].timestampMs);
        assert xs[0] in xs;
      }
    }
  }

  lemma {:induction false} FillRising(xs: seq<Sample>)
    requires Rising(xs)
    ensures Rising(Fill(xs))
  {
    if |xs| > 1 {
      FillRising(xs[1..]);
      var segment, rest := Segment(xs[0], xs[1].timestampMs), Fill(xs[1..]);
      BeatsCopy(xs[0], NextCadence(xs[0].timestampMs), xs[1].timestampMs);
      forall x | x in rest ensures xs[0].value <= x.value {
        FillValues(xs[1..], x);
        var y :| y in xs[1..] && y.value == x.value;
      }
      assert forall i :: 0 <= i < |segment| ==> segment[i].value == xs[0].value;
      assert Fill(xs) == segment + rest;
    }
  }

  lemma HoldLast(xs: seq<Sample>, end: int)
    requires xs != []
    ensures Hold(xs, end) != [] && Hold(xs, end)[|Hold(xs, end)| - 1].value == xs[|xs| - 1].value
  {
    HoldIsFill(xs, end);
    FillDense(WithSentinel(xs, end));
  }

  lemma {:induction false} HoldRising(xs: seq<Sample>, end: int)
    requires Rising(xs) && xs != []
    ensures Rising(Hold(xs, end))
  {
    HoldIsFill(xs, end);
    FillRising(WithSentinel(xs, end));
  }

  lemma HeldRisingMeansRising(xs: seq<Sample>, end: int)
    requires xs != [] && Rising(Hold(xs, end))
    ensures Rising(xs)
  {
    var at := HoldKeepsInputs(xs, end);
    forall i, j | 0 <= i < j < |xs| ensures xs[i].value <= xs[j].value {
      assert Hold(xs, end)[at[i]].value <= Hold(xs, end)[at[j]].value;
    }
  }

  /** Two elements of a rising sorted series stand in the order of their values, so of their times. */
  lemma RisingMeansOrdered(xs: seq<Sample>, sorted: seq<Sample>, i: nat, j: nat)
    requires multiset(xs) == multiset(sorted) && Ordered(sorted, ScrapeSeries.ByTime) && Rising(sorted)
    requires i < |xs| && j < |xs| && xs[i].value < xs[j].value
    ensures xs[i].timestampMs <= xs[j].timestampMs
  {
    assert xs[i] in multiset(sorted) && xs[j] in multiset(sorted);
    var p :| 0 <= p < |sorted| && sorted[p] == xs[i];
    var q :| 0 <= q < |sorted| && sorted[q] == xs[j];
    assert p < q;
    assert ScrapeSeries.ByTime(sorted[p], sorted[q]);
  }

  lemma SortedSeries(xs: seq<Sample>)
    ensures multiset(Sorted(xs, ScrapeSeries.ByTime)) == multiset(xs)
    ensures Ordered(Sorted(xs, ScrapeSeries.ByTime), ScrapeSeries.ByTime)
  {
    SortedPermutes(xs, ScrapeSeries.ByTime);
    SortedOrdered(xs, ScrapeSeries.ByTime);
  }

  /** The series as exported: sorted by time and held until the end of the run. */
  function Exported(labels: Labels, reports: seq<CycleRecord>, end: int): seq<Sample>
    requires reports != []
  {
    Hold(Sorted(Counted(labels, reports), ScrapeSeries.ByTime), end)
  }

  lemma CountedInOrder(labels: Labels, reports: seq<CycleRecord>)
    requires reports != [] && Chronological(reports)
    ensures Ordered(Counted(labels, reports), ScrapeSeries.ByTime)
  {
    var xs := Counted(labels, reports);
    forall i, j | 0 <= i < j < |xs| ensures ScrapeSeries.ByTime(xs[i], xs[j]) {
      assert reports[0].timestampMs <= reports[j - 1].timestampMs;
      if i > 0 { assert reports[i - 1].timestampMs <= reports[j - 1].timestampMs; }
    }
  }

  lemma CountedRising(labels: Labels, reports: seq<CycleRecord>)
    requires reports != []
    ensures Rising(Counted(labels, reports))
  {
    var xs := Counted(labels, reports);
    forall i | 0 <= i < |xs| ensures xs[i].value == i as real { assert xs[i] == CountedAt(labels, reports, i); }
  }

  lemma CountedSorted(labels: Labels, reports: seq<CycleRecord>)
    requires reports != [] && Chronological(reports)
    ensures Sorted(Counted(labels, reports), ScrapeSeries.ByTime) == Counted(labels, reports)
    ensures Rising(Counted(labels, reports))
  {
    CountedInOrder(labels, reports);
    CountedRising(labels, reports);
    SortedFixed(Counted(labels, reports), ScrapeSeries.ByTime);
  }

  lemma ChronologicalExport(labels: Labels, reports: seq<CycleRecord>, end: int)
    requires reports != [] && Chronological(reports)
    ensures Rising(Exported(labels, reports, end))
  {
    CountedSorted(labels, reports);
    HoldRising(Counted(labels, reports), end);
  }

  lemma RisingExportIsChronological(labels: Labels, reports: seq<CycleRecord>, end: int)
    requires reports != [] && Rising(Exported(labels, reports, end))
    ensures Chronological(reports)
  {
    var xs := Counted(labels, reports);
    var sorted := Sorted(xs, ScrapeSeries.ByTime);
    SortedSeries(xs);
    HeldRisingMeansRising(sorted, end);
    forall i, j | 0 <= i < j < |reports| ensures reports[i].timestampMs <= reports[j].timestampMs {
      RisingMeansOrdered(xs, sorted, i + 1, j + 1);
    }
  }

  lemma ExportedSeries(l: Labelling, cycles: seq<CycleRecord>, role: Role, status: string, end: int)
    requires Separates(l) && status != "" && Reporting(cycles, role, status) != []
    ensures SeriesOf(ScrapeLike(EmitAll(l, cycles).0, Some(end)), l(role, status))
         == Exported(l(role, status), Reporting(cycles, role, status), end)
  {
    var labels, reports := l(role, status), Reporting(cycles, role, status);
    EmittedSeries(l, cycles, role, status);
    ScrapedSeries(EmitAll(l, cycles).0, end, (PromotionTotal, labels));
    assert Counted(labels, reports)[0].metric == PromotionTotal;
  }

  /** A backfilled counter never decreases in time exactly when its cycles were recorded in time order. */
  lemma CounterMonotoneIffChronological(l: Labelling, cycles: seq<CycleRecord>, role: Role, status: string, end: int)
    requires Separates(l) && status != "" && Reporting(cycles, role, status) != []
    ensures Rising(SeriesOf(ScrapeLike(EmitAll(l, cycles).0, Some(end)), l(role, status)))
       <==> Chronological(Reporting(cycles, role, status))
  {
    var labels, reports := l(role, status), Reporting(cycles, role, status);
    ExportedSeries(l, cycles, role, status, end);
    if Chronological(reports) { ChronologicalExport(labels, reports, end); }
    if Rising(Exported(labels, reports, end)) { RisingExportIsChronological(labels, reports, end); }
  }

  // ---------------------------------------------------------------------------- live counters

  datatype PromotionEvent = PromotionEvent(run: RunId, cycleId: string, localizationStatus: string,
                                           classificationStatus: string)

  type SeenKey = (string, string, Role, string)

  /** `promotion_seen` and `promotion_counters` of `LIFECYCLE_STATE`. */
  datatype Live = Live(seen: set<SeenKey>, counters: map<Labels, nat>)

  function CycleName(cycleId: string): string { if cycleId == "" then "unknown" else cycleId }

  function EventStatus(e: PromotionEvent, role: Role): string {
    if role == Localization then e.localizationStatus else e.classificationStatus
  }

  function RecordRole(live: Live, labels: Labels, key: SeenKey): Live {
    if key in live.seen then live
      else Live(live.seen + {key}, live.counters[labels := Count(live.counters, labels) + 1])
  }

  function RecordStatus(live: Live, l: Labelling, e: PromotionEvent, role: Role): Live {
    var status := EventStatus(e, role);
    if status == "" then live
    else RecordRole(live, l(role, status), (e.run.lifecycleRunId, CycleName(e.cycleId), role, status))
  }

  function RecordEvent(live: Live, e: PromotionEvent): Live {
    var l := CounterLabels(e.run);
    RecordStatus(RecordStatus(live, l, e, Localization), l, e, Classification)
  }

  function RecordAll(events: seq<PromotionEvent>): Live {
    if events == [] then Live({}, map[])
    else RecordEvent(RecordAll(events[..|events| - 1]), events[|events| - 1])
  }

  /** An event about a counter of a run id, in whatever scenario. */
  predicate Concerns(e: PromotionEvent, runId: string, role: Role, status: string) {
    e.run.lifecycleRunId == runId && EventStatus(e, role) == status
  }

  /** The cycles of a run id for which some event reported a status. */
  function ReportedCycles(events: seq<PromotionEvent>, runId: string, role: Role, status: string): set<string> {
    set e | e in events && Concerns(e, runId, role, status) :: CycleName(e.cycleId)
  }

  /** Event i is the first to report this status for its cycle. */
  ghost predicate FirstReport(events: seq<PromotionEvent>, i: nat, run: RunId, role: Role, status: string)
    requires i < |events|
  {
    && events[i].run == run && Concerns(events[i], run.lifecycleRunId, role, status)
    && CycleName(events[i].cycleId) !in ReportedCycles(events[..i], run.lifecycleRunId, role, status)
  }

  /** The cycles that a scenario reported first. */
  ghost function FirstReported(events: seq<PromotionEvent>, run: RunId, role: Role, status: string): set<string> {
    set i | 0 <= i < |events| && FirstReport(events, i, run, role, status) :: CycleName(events[i].cycleId)
  }

  ghost predicate LiveTracks(live: Live, run: RunId, role: Role, status: string, seen: set<string>,
                             counted: set<string>) {
    && Count(live.counters, CounterLabels(run)(role, status)) == |counted| && counted <= seen
    && forall c :: (run.lifecycleRunId, c, role, status) in live.seen <==> c in seen
  }

  /** What one role of an event adds to the cycles seen and counted. */
  ghost predicate Adds(run: RunId, e: PromotionEvent, about: bool, seen: set<string>, counted: set<string>,
                       seen': set<string>, counted': set<string>) {
    var name := CycleName(e.cycleId);
    && seen' == (if about then seen + {name} else seen)
    && counted' == (if about && name !in seen && e.run == run then counted + {name} else counted)
  }

  lemma RecordStatusTracks(live: Live, run: RunId, role: Role, status: string, seen: set<string>, counted: set<string>,
                           e: PromotionEvent, role': Role, seen': set<string>, counted': set<string>)
    requires status != "" && LiveTracks(live, run, role, status, seen, counted)
    requires Adds(run, e, role == role' && Concerns(e, run.lifecycleRunId, role, status), seen, counted, seen',
                  counted')
    ensures LiveTracks(RecordStatus(live, CounterLabels(e.run), e, role'), run, role, status, seen', counted')
  {
    var name := CycleName(e.cycleId);
    CountersNeverShared(run, role, status, e.run, role', EventStatus(e, role'));
    if name !in seen { assert name !in counted && |counted + {name}| == |counted| + 1; }
  }

  lemma RecordEventTracks(live: Live, run: RunId, role: Role, status: string, seen: set<string>, counted: set<string>,
                          e: PromotionEvent, seen': set<string>, counted': set<string>)
    requires status != "" && LiveTracks(live, run, role, status, seen, counted)
    requires Adds(run, e, Concerns(e, run.lifecycleRunId, role, status), seen, counted, seen', counted')
    ensures LiveTracks(RecordEvent(live, e), run, role, status, seen', counted')
  {
    var middle := RecordStatus(live, CounterLabels(e.run), e, Localization);
    if role == Localization {
      RecordStatusTracks(live, run, role, status, seen, counted, e, Localization, seen', counted');
      RecordStatusTracks(middle, run, role, status, seen', counted', e, Classification, seen', counted');
    } else {
      RecordStatusTracks(live, run, role, status, seen, counted, e, Localization, seen, counted);
      RecordStatusTracks(middle, run, role, status, seen, counted, e, Classification, seen', counted');
    }
  }

  lemma ReportedCyclesSnoc(front: seq<PromotionEvent>, e: PromotionEvent, runId: string, role: Role, status: string)
    ensures ReportedCycles(front + [e], runId, role, status)
         == ReportedCycles(front, runId, role, status)
            + if Concerns(e, runId, role, status) then {CycleName(e.cycleId)} else {}
  {
  }

  lemma FirstReportedSnoc(front: seq<PromotionEvent>, e: PromotionEvent, run: RunId, role: Role, status: string)
    ensures FirstReported(front + [e], run, role, status) == FirstReported(front, run, role, status)
      + if FirstReport(front + [e], |front|, run, role, status) then {CycleName(e.cycleId)} else {}
  {
    var events := front + [e];
    assert events[..|front|] == front;
    forall i | 0 <= i < |front|
      ensures FirstReport(events, i, run, role, status) == FirstReport(front, i, run, role, status) {
      assert events[..i] == front[..i];
    }
    var added := if FirstReport(events, |front|, run, role, status) then {CycleName(e.cycleId)} else {};
    forall c ensures c in FirstReported(events, run, role, status)
        <==> c in FirstReported(front, run, role, status) + added {
      if c in FirstReported(front, run, role, status) {
        var i :| 0 <= i < |front| && FirstReport(front, i, run, role, status) && CycleName(front[i].cycleId) == c;
        assert FirstReport(events, i, run, role, status) && events[i] == front[i];
      }
      if c in added { assert events[|front|] == e; }
      if c in FirstReported(events, run, role, status) {
        var i :| 0 <= i < |events| && FirstReport(events, i, run, role, status) && CycleName(events[i].cycleId) == c;
        if i < |front| { assert FirstReport(front, i, run, role, status) && events[i] == front[i]; }
      }
    }
  }

  /** For any events of any runs: a live counter is the number of different cycles whose first report of the status,
      among all scenarios that use the run id, came from this scenario, however often reports repeat. */
  lemma {:induction false} LiveCountsFirstReports(events: seq<PromotionEvent>, run: RunId, role: Role, status: string)
    requires status != ""
    ensures LiveTracks(RecordAll(events), run, role, status, ReportedCycles(events, run.lifecycleRunId, role, status),
                       FirstReported(events, run, role, status))
  {
    if events != [] {
      var front, e := events[..|events| - 1], events[|events| - 1];
      assert events == front + [e] && events[..|front|] == front;
      LiveCountsFirstReports(front, run, role, status);
      ReportedCyclesSnoc(front, e, run.lifecycleRunId, role, status);
      FirstReportedSnoc(front, e, run, role, status);
      RecordEventTracks(RecordAll(front), run, role, status, ReportedCycles(front, run.lifecycleRunId, role, status),
                        FirstReported(front, run, role, status), e,
                        ReportedCycles(events, run.lifecycleRunId, role, status),
                        FirstReported(events, run, role, status));
    }
  }

  /** A scenario that reuses the run id of another is not counted for the cycles that the other reported first. */
  lemma SharedRunIdIsNotCounted(first: PromotionEvent, second: PromotionEvent, role: Role)
    requires first.run.lifecycleRunId == second.run.lifecycleRunId && first.run != second.run
    requires CycleName(first.cycleId) == CycleName(second.cycleId)
    requires EventStatus(first, role) == EventStatus(second, role) != ""
    ensures Count(RecordAll([first, second]).counters, CounterLabels(second.run)(role, EventStatus(second, role))) == 0
  {
    var events, status := [first, second], EventStatus(second, role);
    LiveCountsFirstReports(events, second.run, role, status);
    assert events[..1] == [first] && first in events[..1];
    assert CycleName(second.cycleId) in ReportedCycles(events[..1], second.run.lifecycleRunId, role, status);
    assert FirstReported(events, second.run, role, status) == {};
  }

  /** Every event with the run id comes from the run's own scenario. */
  ghost predicate OwnScenario(events: seq<PromotionEvent>, run: RunId) {
    forall e :: e in events && e.run.lifecycleRunId == run.lifecycleRunId ==> e.run == run
  }

  lemma {:induction false} OwnReports(events: seq<PromotionEvent>, run: RunId, role: Role, status: string)
    requires OwnScenario(events, run)
    ensures FirstReported(events, run, role, status) == ReportedCycles(events, run.lifecycleRunId, role, status)
  {
    if events != [] {
      var front, e := events[..|events| - 1], events[|events| - 1];
      assert events == front + [e] && e in events && events[..|front|] == front;
      OwnReports(front, run, role, status);
      ReportedCyclesSnoc(front, e, run.lifecycleRunId, role, status);
      FirstReportedSnoc(front, e, run, role, status);
    }
  }

  /** When no other scenario uses the run id, the live counter is the number of different cycles that reported the
      status, whatever other runs report in between. */
  lemma LiveCountsCycles(events: seq<PromotionEvent>, run: RunId, role: Role, status: string)
    requires status != "" && OwnScenario(events, run)
    ensures Count(RecordAll(events).counters, CounterLabels(run)(role, status))
         == |ReportedCycles(events, run.lifecycleRunId, role, status)|
  {
    LiveCountsFirstReports(events, run, role, status);
    OwnReports(events, run, role, status);
  }

  /** The last of the reporting records with the greatest timestamp. */
  function LatestReport(reports: seq<CycleRecord>): (k: nat)
    requires reports != []
    ensures k < |reports|
    ensures forall j :: 0 <= j < |reports| ==> reports[j].timestampMs <= reports[k].timestampMs
    ensures forall j :: k < j < |reports| ==> reports[j].timestampMs < reports[k].timestampMs
  {
    var n := |reports| - 1;
    if n == 0 then 0
    else
      var k := LatestReport(reports[..n]);
      assert forall j :: 0 <= j < n ==> reports[..n][j] == reports[j];
      if reports[n].timestampMs >= reports[k].timestampMs then n else k
  }

  lemma LatestSample(labels: Labels, reports: seq<CycleRecord>, k: nat, j: nat)
    requires k < |reports| && j <= |reports|
    requires forall i :: 0 <= i < |reports| ==> reports[i].timestampMs <= reports[k].timestampMs
    requires forall i :: k < i < |reports| ==> reports[i].timestampMs < reports[k].timestampMs
    ensures CountedAt(labels, reports, j).timestampMs <= CountedAt(labels, reports, k + 1).timestampMs
    ensures j > k + 1 ==> CountedAt(labels, reports, j).timestampMs < CountedAt(labels, reports, k + 1).timestampMs
  {
    if j > 0 { assert reports[j - 1].timestampMs <= reports[k].timestampMs; }
  }

  lemma LastByTime(xs: seq<Sample>, k: nat)
    requires k < |xs|
    requires forall j :: 0 <= j < |xs| ==> xs[j].timestampMs <= xs[k].timestampMs
    requires forall j :: k < j < |xs| ==> xs[j].timestampMs < xs[k].timestampMs
    ensures LastSample(Sorted(xs, ScrapeSeries.ByTime)) == xs[k]
  {
    ScrapeSeries.ByTimeIsOrder();
    forall j | 0 <= j < |xs| ensures ScrapeSeries.ByTime(xs[j], xs[k]) {}
    forall j | k < j < |xs| ensures !ScrapeSeries.ByTime(xs[k], xs[j]) {}
    SortedLast(xs, ScrapeSeries.ByTime, k);
  }

  lemma CountedLast(labels: Labels, reports: seq<CycleRecord>)
    requires reports != []
    ensures LastSample(Sorted(Counted(labels, reports), ScrapeSeries.ByTime))
      == CountedAt(labels, reports, LatestReport(reports) + 1)
  {
    var k := LatestReport(reports);
    forall j | 0 <= j <= |reports|
      ensures Counted(labels, reports)[j].timestampMs <= Counted(labels, reports)[k + 1].timestampMs
      ensures j > k + 1 ==> Counted(labels, reports)[j].timestampMs < Counted(labels, reports)[k + 1].timestampMs
    {
      LatestSample(labels, reports, k, j);
    }
    LastByTime(Counted(labels, reports), k + 1);
  }

  function LastSample(xs: seq<Sample>): Sample
    requires xs != []
  {
    xs[|xs| - 1]
  }

  lemma LastCount(labels: Labels, reports: seq<CycleRecord>)
    requires reports != []
    ensures LastSample(Sorted(Counted(labels, reports), ScrapeSeries.ByTime)).value
      == (LatestReport(reports) + 1) as real
  {
    CountedLast(labels, reports);
    assert CountedAt(labels, reports, LatestReport(reports) + 1).value == (LatestReport(reports) + 1) as real;
  }

  lemma HeldLast(ordered: seq<Sample>, end: int, value: real)
    requires ordered != [] && LastSample(ordered).value == value
    ensures Hold(ordered, end) != [] && LastSample(Hold(ordered, end)).value == value
  {
    HoldLast(ordered, end);
  }

  /** The exported series ends with the count reached at the latest record. */
  lemma ExportedLast(labels: Labels, reports: seq<CycleRecord>, end: int)
    requires reports != []
    ensures Exported(labels, reports, end) != []
    ensures LastSample(Exported(labels, reports, end)).value == (LatestReport(reports) + 1) as real
  {
    LastCount(labels, reports);
    HeldLast(Sorted(Counted(labels, reports), ScrapeSeries.ByTime), end, (LatestReport(reports) + 1) as real);
  }

  lemma FinalValue(run: RunId, cycles: seq<CycleRecord>, role: Role, status: string, end: int)
    requires status != "" && Reporting(cycles, role, status) != []
    ensures var exported := SeriesOf(ScrapeLike(EmitAll(CounterLabels(run), cycles).0, Some(end)),
                                     CounterLabels(run)(role, status));
      exported != [] && LastSample(exported).value == (LatestReport(Reporting(cycles, role, status)) + 1) as real
  {
    CounterLabelsSeparate(run);
    ExportedSeries(CounterLabels(run), cycles, role, status, end);
    ExportedLast(CounterLabels(run)(role, status), Reporting(cycles, role, status), end);
  }

  function CycleIds(reports: seq<CycleRecord>): seq<string> {
    seq(|reports|, i requires 0 <= i < |reports| => CycleName(reports[i].cycleId))
  }

  ghost predicate AllDifferent(xs: seq<string>) {
    forall i, j :: 0 <= i < j < |xs| ==> xs[i] != xs[j]
  }

  /** A list has as many different elements as positions exactly when it repeats none. */
  lemma {:induction false} DifferentIffFullSet(xs: seq<string>)
    ensures |set x | x in xs| <= |xs|
    ensures |set x | x in xs| == |xs| <==> AllDifferent(xs)
  {
    if xs == [] {
      assert (set x | x in xs) == {};
    } else {
      var front, last := xs[..|xs| - 1], xs[|xs| - 1];
      DifferentIffFullSet(front);
      assert xs == front + [last];
      assert (set x | x in xs) == (set x | x in front) + {last};
      if last in front {
        assert (set x | x in xs) == (set x | x in front);
        var k :| 0 <= k < |front| && front[k] == last;
        assert xs[k] == xs[|xs| - 1];
      }
    }
  }

  /** No record with the status was taken later than the last one listed. */
  ghost predicate LastIsLatest(reports: seq<CycleRecord>) {
    forall j :: 0 <= j < |reports| ==> reports[j].timestampMs <= reports[|reports| - 1].timestampMs
  }

  lemma LatestIsLastIff(reports: seq<CycleRecord>)
    requires reports != []
    ensures LatestReport(reports) == |reports| - 1 <==> LastIsLatest(reports)
    ensures Chronological(reports) ==> LastIsLatest(reports)
  {
  }

  /** The value the exported counter ends at. */
  function FinalExported(run: RunId, cycles: seq<CycleRecord>, role: Role, status: string, end: int): (v: real)
    requires status != "" && Reporting(cycles, role, status) != []
    ensures v == (LatestReport(Reporting(cycles, role, status)) + 1) as real
  {
    FinalValue(run, cycles, role, status, end);
    LastSample(SeriesOf(ScrapeLike(EmitAll(CounterLabels(run), cycles).0, Some(end)),
                        CounterLabels(run)(role, status))).value
  }

  lemma FinalAgainstLive(reports: seq<CycleRecord>, final: real, live: nat)
    requires reports != [] && final == (LatestReport(reports) + 1) as real && live == |set c | c in CycleIds(reports)|
    ensures final == live as real <==> LatestReport(reports) + 1 == |set c | c in CycleIds(reports)|
    ensures AllDifferent(CycleIds(reports))
      ==> (final == live as real <==> LastIsLatest(reports)) && final <= live as real
    ensures Chronological(reports)
      ==> final >= live as real && (final == live as real <==> AllDifferent(CycleIds(reports)))
  {
    DifferentIffFullSet(CycleIds(reports));
    LatestIsLastIff(reports);
  }

  /** For the same promotions: the backfill ends at the position of the latest record, the live counter at the number
      of different cycle ids. With distinct ids they agree exactly when the last record listed is a latest one; in
      time order, exactly when ids are distinct, and otherwise the backfill counts more. */
  lemma BackfillMatchesLive(run: RunId, cycles: seq<CycleRecord>, events: seq<PromotionEvent>, role: Role,
                            status: string, end: int)
    requires status != "" && OwnScenario(events, run)
    requires Reporting(cycles, role, status) != []
    requires ReportedCycles(events, run.lifecycleRunId, role, status)
      == set c | c in CycleIds(Reporting(cycles, role, status))
    ensures var reports := Reporting(cycles, role, status);
      var final, live := FinalExported(run, cycles, role, status, end),
        Count(RecordAll(events).counters, CounterLabels(run)(role, status));
      && (final == live as real <==> LatestReport(reports) + 1 == |set c | c in CycleIds(reports)|)
      && (AllDifferent(CycleIds(reports))
          ==> (final == live as real <==> LastIsLatest(reports)) && final <= live as real)
      && (Chronological(reports)
          ==> final >= live as real && (final == live as real <==> AllDifferent(CycleIds(reports))))
  {
    LiveCountsCycles(events, run, role, status);
    FinalAgainstLive(Reporting(cycles, role, status), FinalExported(run, cycles, role, status, end),
                     Count(RecordAll(events).counters, CounterLabels(run)(role, status)));
  }

  lemma BothReport(a: CycleRecord, b: CycleRecord, role: Role, status: string)
    requires Reports(a, role, status) && Reports(b, role, status)
    ensures Reporting([a, b], role, status) == [a, b]
  {
    assert [a, b][..1] == [a] && [a][..0] == [];
    assert Reporting([a], role, status) == [] + [a];
  }

  lemma LatestOfTwo(a: CycleRecord, b: CycleRecord)
    requires b.timestampMs < a.timestampMs
    ensures LatestReport([a, b]) == 0
  {
    assert [a, b][..1] == [a];
  }

  lemma LiveCountsTwo(events: seq<PromotionEvent>, run: RunId, role: Role, status: string, first: string,
                      second: string)
    requires status != "" && OwnScenario(events, run) && first != second
    requires ReportedCycles(events, run.lifecycleRunId, role, status) == {first, second}
    ensures Count(RecordAll(events).counters, CounterLabels(run)(role, status)) == 2
  {
    LiveCountsCycles(events, run, role, status);
  }

  /** Two cycles recorded out of time order: the backfill ends at 1, the live counter at 2. */
  lemma OutOfOrderBackfillEndsLow(run: RunId, a: CycleRecord, b: CycleRecord, events: seq<PromotionEvent>, role: Role,
                                  status: string, end: int)
    requires status != "" && Reports(a, role, status) && Reports(b, role, status)
    requires CycleName(a.cycleId) != CycleName(b.cycleId) && b.timestampMs < a.timestampMs
    requires OwnScenario(events, run)
    requires ReportedCycles(events, run.lifecycleRunId, role, status) == {CycleName(a.cycleId), CycleName(b.cycleId)}
    ensures Reporting([a, b], role, status) != []
    ensures FinalExported(run, [a, b], role, status, end) == 1.0
    ensures Count(RecordAll(events).counters, CounterLabels(run)(role, status)) == 2
  {
    BothReport(a, b, role, status);
    LatestOfTwo(a, b);
    LiveCountsTwo(events, run, role, status, CycleName(a.cycleId), CycleName(b.cycleId));
  }

  // ---------------------------------------------------------------------------- in place

  class LifecycleMetrics {
    var promotionSeen: set<SeenKey>
    var promotionCounters: map<Labels, nat>

    ghost function State(): Live
      reads this
    {
      Live(promotionSeen, promotionCounters)
    }

    constructor ()
      ensures State() == RecordAll([])
    {
      promotionSeen, promotionCounters := {}, map[];
    }

    method RecordPromotionStatus(e: PromotionEvent)
      modifies this
      ensures State() == RecordEvent(old(State()), e)
    {
      RecordOne(e, Localization);
      RecordOne(e, Classification);
    }

    method RecordOne(e: PromotionEvent, role: Role)
      modifies this
      ensures State() == RecordStatus(old(State()), CounterLabels(e.run), e, role)
    {
      var status := EventStatus(e, role);
      if status == "" { return; }
      var key := (e.run.lifecycleRunId, CycleName(e.cycleId), role, status);
      if key !in promotionSeen {
        promotionSeen := promotionSeen + {key};
        var labels := CounterLabels(e.run)(role, status);
        promotionCounters := promotionCounters[labels := Count(promotionCounters, labels) + 1];
      }
    }
  }

  method PromotionCounterSamples(run: RunId, cycles: seq<CycleRecord>) returns (samples: seq<Sample>)
    ensures samples == EmitAll(CounterLabels(run), cycles).0
  {
    samples := [];
    var c := Counters(map[], {});
    for i := 0 to |cycles|
      invariant (samples, c) == EmitAll(CounterLabels(run), cycles[..i])
    {
      assert cycles[..i + 1][..i] == cycles[..i];
      var first, c1 := EmitInto(CounterLabels(run), Localization, cycles[i], c);
      var second, c2 := EmitInto(CounterLabels(run), Classification, cycles[i], c1);
      samples, c := samples + (first + second), c2;
    }
    assert cycles[..|cycles|] == cycles;
  }

  method EmitInto(l: Labelling, role: Role, cycle: CycleRecord, c: Counters)
    returns (output: seq<Sample>, next: Counters)
    ensures (output, next) == EmitStatus(l, role, cycle, c)
  {
    output, next := [], c;
    var status := StatusOf(cycle, role);
    if status == "" { return; }
    var key := l(role, status);
    if key !in next.initialized {
      output := [CounterSample(key, 0, cycle.timestampMs - 1000)];
    }
    next := Counters(next.values[key := Count(next.values, key) + 1], next.initialized + {key});
    output := output + [CounterSample(key, next.values[key], cycle.timestampMs)];
  }
}

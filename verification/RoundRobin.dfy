/** The balanced stable baseline of the drift scenario: one queue per view pair, drained in turn
    (`_balanced_piece_b_baseline_rows` in scripts/prepare_piece_b_to_piece_a_p4_drift_scenario.py). */
module RoundRobin {
  import opened ReplayEvents
  import opened Sorting
  import opened Groups
  import opened DriftRows
  import opened Arithmetic
  import DriftObservation

  // ---------------------------------------------------------------------------- draining queues in turn

  /** The first element of every non-empty queue. */
  function Heads<T>(queues: seq<seq<T>>): seq<T> {
    if queues == [] then []
    else Heads(queues[..|queues| - 1]) + First(queues[|queues| - 1])
  }

  function First<T>(queue: seq<T>): seq<T> { if queue == [] then [] else [queue[0]] }

  function Rest<T>(queue: seq<T>): seq<T> { if queue == [] then [] else queue[1..] }

  function Tails<T>(queues: seq<seq<T>>): (r: seq<seq<T>>)
    ensures |r| == |queues|
  {
    seq(|queues|, k requires 0 <= k < |queues| => Rest(queues[k]))
  }

  function Total<T>(queues: seq<seq<T>>): nat {
    if queues == [] then 0 else Total(queues[..|queues| - 1]) + |queues[|queues| - 1]|
  }

  lemma TailsFront<T>(queues: seq<seq<T>>)
    requires queues != []
    ensures Tails(queues)[..|queues| - 1] == Tails(queues[..|queues| - 1])
  {
  }

  lemma {:induction false} TailsShrink<T>(queues: seq<seq<T>>)
    ensures Total(Tails(queues)) + |Heads(queues)| == Total(queues)
  {
    if queues != [] {
      TailsShrink(queues[..|queues| - 1]);
      TailsFront(queues);
    }
  }

  lemma {:induction false} NoHeads<T>(queues: seq<seq<T>>)
    ensures Heads(queues) == [] <==> forall k :: 0 <= k < |queues| ==> queues[k] == []
  {
    if queues != [] {
      var front := queues[..|queues| - 1];
      NoHeads(front);
      assert forall k :: 0 <= k < |front| ==> front[k] == queues[k];
    }
  }

  /** Rounds are repeated until every queue is empty. */
  function Drained<T>(queues: seq<seq<T>>): seq<T>
    decreases Total(queues)
  {
    TailsShrink(queues);
    if Heads(queues) == [] then [] else Heads(queues) + Drained(Tails(queues))
  }

  /** Every element carries the key of its queue, and keys differ between queues. */
  ghost predicate Keyed<K(!new), T(!new)>(queues: seq<seq<T>>, keys: seq<K>, key: T -> K) {
    && |keys| == |queues| && Distinct(keys)
    && forall k :: 0 <= k < |queues| ==> forall x :: x in queues[k] ==> key(x) == keys[k]
  }

  lemma FrontKeyed<K(!new), T(!new)>(queues: seq<seq<T>>, keys: seq<K>, key: T -> K)
    requires Keyed(queues, keys, key) && queues != []
    ensures Keyed(queues[..|queues| - 1], keys[..|queues| - 1], key)
  {
    var n := |queues| - 1;
    assert forall k :: 0 <= k < n ==> keys[..n][k] == keys[k] && queues[..n][k] == queues[k];
  }

  lemma TailsKeyed<K(!new), T(!new)>(queues: seq<seq<T>>, keys: seq<K>, key: T -> K)
    requires Keyed(queues, keys, key)
    ensures Keyed(Tails(queues), keys, key)
  {
  }

  lemma {:induction false} HeadsOf<K(!new), T(!new)>(queues: seq<seq<T>>, keys: seq<K>, key: T -> K, allKeys: seq<K>,
                                                     k: nat)
    requires Keyed(queues, keys, key) && Distinct(allKeys) && k < |allKeys| && keys <= allKeys
    ensures Filter(Heads(queues), HasKey(key, allKeys[k])) == if k < |queues| then First(queues[k]) else []
  {
    if queues != [] {
      var n := |queues| - 1;
      FrontKeyed(queues, keys, key);
      HeadsOf(queues[..n], keys[..n], key, allKeys, k);
      FilterAppend(Heads(queues[..n]), First(queues[n]), HasKey(key, allKeys[k]));
      assert keys[n] == allKeys[n];
      FilterUniform(First(queues[n]), HasKey(key, allKeys[k]), k == n);
    }
  }

  lemma RoundOf<K(!new), T(!new)>(queues: seq<seq<T>>, later: seq<T>, keys: seq<K>, key: T -> K, k: nat)
    requires Keyed(queues, keys, key) && k < |queues|
    ensures Filter(Heads(queues) + later, HasKey(key, keys[k]))
      == First(queues[k]) + Filter(later, HasKey(key, keys[k]))
  {
    HeadsOf(queues, keys, key, keys, k);
    FilterAppend(Heads(queues), later, HasKey(key, keys[k]));
  }

  /** Draining keeps each queue: its elements come out in their order. */
  lemma {:induction false} DrainedKeepsQueues<K(!new), T(!new)>(queues: seq<seq<T>>, keys: seq<K>, key: T -> K, k: nat)
    requires Keyed(queues, keys, key) && k < |queues|
    ensures Filter(Drained(queues), HasKey(key, keys[k])) == queues[k]
    decreases Total(queues)
  {
    TailsShrink(queues);
    if Heads(queues) == [] {
      NoHeads(queues);
    } else {
      TailsKeyed(queues, keys, key);
      DrainedKeepsQueues(Tails(queues), keys, key, k);
      RoundOf(queues, Drained(Tails(queues)), keys, key, k);
      assert First(queues[k]) + Rest(queues[k]) == queues[k];
    }
  }

  lemma {:induction false} DrainedHasKey<K(!new), T(!new)>(queues: seq<seq<T>>, keys: seq<K>, key: T -> K, x: T)
    requires Keyed(queues, keys, key) && x in Drained(queues)
    ensures key(x) in keys
    decreases Total(queues)
  {
    TailsShrink(queues);
    if x in Heads(queues) {
      HeadHasKey(queues, keys, key, x);
    } else {
      TailsKeyed(queues, keys, key);
      DrainedHasKey(Tails(queues), keys, key, x);
    }
  }

  lemma {:induction false} HeadHasKey<K(!new), T(!new)>(queues: seq<seq<T>>, keys: seq<K>, key: T -> K, x: T)
    requires Keyed(queues, keys, key) && x in Heads(queues)
    ensures key(x) in keys
  {
    var n := |queues| - 1;
    if x in Heads(queues[..n]) {
      FrontKeyed(queues, keys, key);
      HeadHasKey(queues[..n], keys[..n], key, x);
    } else {
      assert x in queues[n] && keys[n] in keys;
    }
  }

  // ---------------------------------------------------------------------------- fairness

  /** How many of the first p elements come from the queue of this key. */
  function Served<K(==), T>(out: seq<T>, p: nat, key: T -> K, k: K): nat
    requires p <= |out|
  {
    |Filter(out[..p], HasKey(key, k))|
  }

  /** Queue k is at most one behind queue j, and not behind at all when it comes first in the turn; only an
      exhausted queue may lag more. */
  ghost predicate Fair(servedJ: nat, servedK: nat, lengthK: nat, kFirst: bool) {
    servedK == lengthK || servedJ <= servedK + if kFirst then 0 else 1
  }

  /** A prefix of one round is what the first few queues give. */
  lemma {:induction false} HeadsPrefix<T>(queues: seq<seq<T>>, p: nat) returns (i: nat)
    requires p <= |Heads(queues)|
    ensures i <= |queues| && Heads(queues)[..p] == Heads(queues[..i])
  {
    if p == |Heads(queues)| {
      i := |queues|;
      assert queues[..i] == queues;
    } else {
      var front := queues[..|queues| - 1];
      i := HeadsPrefix(front, p);
      assert front[..i] == queues[..i];
    }
  }

  lemma PrefixKeyed<K(!new), T(!new)>(queues: seq<seq<T>>, keys: seq<K>, key: T -> K, i: nat)
    requires Keyed(queues, keys, key) && i <= |queues|
    ensures Keyed(queues[..i], keys[..i], key)
  {
    assert forall k :: 0 <= k < i ==> keys[..i][k] == keys[k] && queues[..i][k] == queues[k];
  }

  /** Within the first round every queue is served at most once, those earlier in the turn first. */
  lemma ServedInFirstRound<K(!new), T(!new)>(queues: seq<seq<T>>, keys: seq<K>, key: T -> K, p: nat, j: nat, k: nat)
    requires Keyed(queues, keys, key) && p <= |Heads(queues)| && j < |queues| && k < |queues|
    ensures Fair(Served(Heads(queues), p, key, keys[j]), Served(Heads(queues), p, key, keys[k]), |queues[k]|, k < j)
  {
    var i := HeadsPrefix(queues, p);
    PrefixKeyed(queues, keys, key, i);
    HeadsOf(queues[..i], keys[..i], key, keys, j);
    HeadsOf(queues[..i], keys[..i], key, keys, k);
  }

  lemma FairAfterRound<T>(queueJ: seq<T>, queueK: seq<T>, laterJ: nat, laterK: nat, kFirst: bool)
    requires laterK <= |Rest(queueK)| && laterJ <= |Rest(queueJ)| && Fair(laterJ, laterK, |Rest(queueK)|, kFirst)
    ensures Fair(|First(queueJ)| + laterJ, |First(queueK)| + laterK, |queueK|, kFirst)
  {
  }

  lemma {:induction false} DrainedFair<K(!new), T(!new)>(queues: seq<seq<T>>, keys: seq<K>, key: T -> K, p: nat, j: nat,
                                                         k: nat)
    requires Keyed(queues, keys, key) && p <= |Drained(queues)| && j < |queues| && k < |queues|
    ensures Fair(Served(Drained(queues), p, key, keys[j]), Served(Drained(queues), p, key, keys[k]), |queues[k]|, k < j)
    decreases Total(queues)
  {
    TailsShrink(queues);
    NoHeads(queues);
    var heads := Heads(queues);
    if heads == [] {
      assert queues[k] == [] && queues[j] == [];
      ServedAtMostLength(queues, keys, key, p, j);
    } else if p <= |heads| {
      ServedInFirstRound(queues, keys, key, p, j, k);
      assert Drained(queues)[..p] == heads[..p];
    } else {
      TailsKeyed(queues, keys, key);
      ServedAfterRound(queues, keys, key, p, j);
      ServedAfterRound(queues, keys, key, p, k);
      DrainedFair(Tails(queues), keys, key, p - |heads|, j, k);
      ServedAtMostLength(Tails(queues), keys, key, p - |heads|, j);
      ServedAtMostLength(Tails(queues), keys, key, p - |heads|, k);
      FairAfterRound(queues[j], queues[k], Served(Drained(Tails(queues)), p - |heads|, key, keys[j]),
                     Served(Drained(Tails(queues)), p - |heads|, key, keys[k]), k < j);
    }
  }

  lemma ServedAfterRound<K(!new), T(!new)>(queues: seq<seq<T>>, keys: seq<K>, key: T -> K, p: nat, k: nat)
    requires Keyed(queues, keys, key) && k < |queues| && Heads(queues) != [] && |Heads(queues)| < p <= |Drained(queues)|
    ensures p - |Heads(queues)| <= |Drained(Tails(queues))|
    ensures Served(Drained(queues), p, key, keys[k])
      == |First(queues[k])| + Served(Drained(Tails(queues)), p - |Heads(queues)|, key, keys[k])
  {
    var heads, later := Heads(queues), Drained(Tails(queues));
    assert Drained(queues)[..p] == heads + later[..p - |heads|];
    FilterAppend(heads, later[..p - |heads|], HasKey(key, keys[k]));
    HeadsOf(queues, keys, key, keys, k);
  }

  lemma ServedAtMostLength<K(!new), T(!new)>(queues: seq<seq<T>>, keys: seq<K>, key: T -> K, p: nat, k: nat)
    requires Keyed(queues, keys, key) && k < |queues| && p <= |Drained(queues)|
    ensures Served(Drained(queues), p, key, keys[k]) <= |queues[k]|
  {
    DrainedKeepsQueues(queues, keys, key, k);
    var out := Drained(queues);
    assert out == out[..p] + out[p..];
    FilterAppend(out[..p], out[p..], HasKey(key, keys[k]));
  }

  // ---------------------------------------------------------------------------- the baseline

  function ViewOf(row: DriftRow): string { row.viewPairs }

  /** Rows of one view are ordered by timestamp, then sequence number (as text), then event id. */
  predicate RowLe(a: DriftRow, b: DriftRow) {
    if a.sourceTimestamp != b.sourceTimestamp then StrLe(a.sourceTimestamp, b.sourceTimestamp)
    else PairLe((a.sequenceNumber, a.eventId), (b.sequenceNumber, b.eventId))
  }

  lemma RowLeIsPreorder()
    ensures TotalPreorder(RowLe)
  {
    PairLeIsOrder();
    StrLeIsOrder();
  }

  function GoodRows(rows: seq<DriftRow>): seq<DriftRow> { Filter(rows, IsGoodConformingRow) }

  function RowsOfView(rows: seq<DriftRow>, view: string): seq<DriftRow> {
    Sorted(Filter(GoodRows(rows), HasKey(ViewOf, view)), RowLe)
  }

  /** The keys of the buckets, in order of first appearance. */
  function Names(buckets: Groups<string, DriftRow>): seq<string> {
    seq(|buckets|, i requires 0 <= i < |buckets| => buckets[i].0)
  }

  function Views(rows: seq<DriftRow>): seq<string> {
    Sorted(Names(GroupBy(GoodRows(rows), ViewOf)), StrLe)
  }

  function QueuesOf(rows: seq<DriftRow>, views: seq<string>): seq<seq<DriftRow>> {
    seq(|views|, k requires 0 <= k < |views| => RowsOfView(rows, views[k]))
  }

  /** All good rows in round-robin order. */
  function Balanced(rows: seq<DriftRow>): seq<DriftRow> { Drained(QueuesOf(rows, Views(rows))) }

  /** The number of rows that fill whole windows. */
  function CompleteCount(n: nat, w: nat): nat
    requires w > 0
  {
    (n / w) * w
  }

  /** The largest multiple of w that does not exceed n. */
  lemma CompleteCountIsLargest(n: nat, w: nat, other: nat)
    requires w > 0
    ensures CompleteCount(n, w) <= n < CompleteCount(n, w) + w
    ensures other * w <= n ==> other * w <= CompleteCount(n, w)
  {
    var q := n / w;
    assert n == w * q + n % w;
    if other > q { ScaledLe(q + 1, other, w); }
    if other <= q { ScaledLe(other, q, w); }
  }

  datatype Baseline = WindowSizeNotPositive | Rows(rows: seq<DriftRow>)

  function BaselineRows(rows: seq<DriftRow>, windowSize: int): Baseline {
    if windowSize <= 0 then WindowSizeNotPositive
    else Rows(DriftObservation.Take(Balanced(rows), CompleteCount(|Balanced(rows)|, windowSize)))
  }

  lemma ViewsExact(rows: seq<DriftRow>)
    ensures Distinct(Views(rows))
    ensures forall row :: row in GoodRows(rows) ==> ViewOf(row) in Views(rows)
  {
    var buckets := GroupBy(GoodRows(rows), ViewOf);
    var names := Names(buckets);
    GroupByValid(GoodRows(rows), ViewOf);
    SortedPermutes(names, StrLe);
    PermutationDistinct(names, Views(rows));
    forall row | row in GoodRows(rows) ensures ViewOf(row) in Views(rows) {
      GroupByLookup(GoodRows(rows), ViewOf, ViewOf(row));
      FilterMember(GoodRows(rows), HasKey(ViewOf, ViewOf(row)), row);
      LookupMissing(buckets, ViewOf(row));
      var i :| 0 <= i < |buckets| && buckets[i].0 == ViewOf(row);
      assert names[i] in multiset(names);
    }
  }

  lemma QueuesKeyed(rows: seq<DriftRow>, views: seq<string>)
    requires Distinct(views)
    ensures Keyed(QueuesOf(rows, views), views, ViewOf)
  {
    forall k | 0 <= k < |views| ensures forall x :: x in QueuesOf(rows, views)[k] ==> ViewOf(x) == views[k] {
      var unsorted := Filter(GoodRows(rows), HasKey(ViewOf, views[k]));
      SortedPermutes(unsorted, RowLe);
      assert QueuesOf(rows, views)[k] == RowsOfView(rows, views[k]) == Sorted(unsorted, RowLe);
      forall x | x in Sorted(unsorted, RowLe) ensures ViewOf(x) == views[k] {
        assert x in multiset(Sorted(unsorted, RowLe));
        assert x in unsorted;
      }
    }
  }

  /** The rows of a view leave in order of timestamp, sequence number and id, none lost and none added. */
  lemma BalancedKeepsViews(rows: seq<DriftRow>, view: string)
    ensures Filter(Balanced(rows), HasKey(ViewOf, view)) == RowsOfView(rows, view)
    ensures Ordered(RowsOfView(rows, view), RowLe)
    ensures multiset(RowsOfView(rows, view)) == multiset(Filter(GoodRows(rows), HasKey(ViewOf, view)))
  {
    RowLeIsPreorder();
    SortedOrdered(Filter(GoodRows(rows), HasKey(ViewOf, view)), RowLe);
    SortedPermutes(Filter(GoodRows(rows), HasKey(ViewOf, view)), RowLe);
    var views := Views(rows);
    ViewsExact(rows);
    QueuesKeyed(rows, views);
    if view in views {
      var k :| 0 <= k < |views| && views[k] == view;
      DrainedKeepsQueues(QueuesOf(rows, views), views, ViewOf, k);
    } else {
      forall x | x in Balanced(rows) ensures ViewOf(x) != view {
        DrainedHasKey(QueuesOf(rows, views), views, ViewOf, x);
      }
      FilterUniform(Balanced(rows), HasKey(ViewOf, view), false);
      FilterUniform(GoodRows(rows), HasKey(ViewOf, view), false);
    }
  }

  /** Before truncation the baseline is a permutation of the good rows. */
  lemma BalancedPermutes(rows: seq<DriftRow>)
    ensures multiset(Balanced(rows)) == multiset(GoodRows(rows))
    ensures |Balanced(rows)| == |GoodRows(rows)|
  {
    forall x ensures multiset(Balanced(rows))[x] == multiset(GoodRows(rows))[x] {
      BalancedKeepsViews(rows, ViewOf(x));
      var ofView := HasKey(ViewOf, ViewOf(x));
      FilterPermutation(Balanced(rows), ofView, x);
      FilterPermutation(GoodRows(rows), ofView, x);
      SortedPermutes(Filter(GoodRows(rows), ofView), RowLe);
    }
    assert |multiset(Balanced(rows))| == |Balanced(rows)| && |multiset(GoodRows(rows))| == |GoodRows(rows)|;
  }

  /** The rows of the baseline, before truncation, are those that nothing marks as defective. */
  lemma BaselineHolds(rows: seq<DriftRow>, row: DriftRow)
    ensures row in Balanced(rows)
      <==> && row in rows && Lower(row.rowLabel) != "defective" && Lower(row.isDefective) != "true"
           && Lower(row.oracleVerdict) !in {"defective", "non_conforme"}
  {
    BalancedPermutes(rows);
    assert row in Balanced(rows) <==> row in multiset(GoodRows(rows));
    if row in rows && IsGoodConformingRow(row) { FilterMember(rows, IsGoodConformingRow, row); }
  }

  /** In every prefix of the baseline, truncated or not, views with rows left stay within one row of each other. */
  lemma BaselineFair(rows: seq<DriftRow>, p: nat, j: nat, k: nat)
    requires p <= |Balanced(rows)| && j < |Views(rows)| && k < |Views(rows)|
    ensures Fair(Served(Balanced(rows), p, ViewOf, Views(rows)[j]), Served(Balanced(rows), p, ViewOf, Views(rows)[k]),
                 |RowsOfView(rows, Views(rows)[k])|, k < j)
  {
    ViewsExact(rows);
    QueuesKeyed(rows, Views(rows));
    DrainedFair(QueuesOf(rows, Views(rows)), Views(rows), ViewOf, p, j, k);
  }

  lemma ViewIndex(rows: seq<DriftRow>, view: string) returns (k: nat)
    requires Filter(GoodRows(rows), HasKey(ViewOf, view)) != []
    ensures k < |Views(rows)| && Views(rows)[k] == view
  {
    ViewsExact(rows);
    var row := Filter(GoodRows(rows), HasKey(ViewOf, view))[0];
    assert row in GoodRows(rows) && ViewOf(row) == view;
    k :| 0 <= k < |Views(rows)| && Views(rows)[k] == view;
  }

  lemma EarlierName(rows: seq<DriftRow>, j: nat, k: nat)
    requires j < |Views(rows)| && k < |Views(rows)|
    ensures k < j <==> Views(rows)[k] != Views(rows)[j] && StrLe(Views(rows)[k], Views(rows)[j])
  {
    ViewsExact(rows);
    StrLeIsOrder();
    SortedOrdered(Names(GroupBy(GoodRows(rows), ViewOf)), StrLe);
    if k < j { assert StrLe(Views(rows)[k], Views(rows)[j]); }
    if j < k { assert StrLe(Views(rows)[j], Views(rows)[k]); }
  }

  lemma ServedOf(rows: seq<DriftRow>, p: nat, view: string)
    requires p <= |Balanced(rows)|
    ensures Served(Balanced(rows), p, ViewOf, view) <= |Filter(GoodRows(rows), HasKey(ViewOf, view))|
    ensures |RowsOfView(rows, view)| == |Filter(GoodRows(rows), HasKey(ViewOf, view))|
  {
    BalancedKeepsViews(rows, view);
    var out := Balanced(rows);
    assert out == out[..p] + out[p..];
    FilterAppend(out[..p], out[p..], HasKey(ViewOf, view));
  }

  /** Views take turns in the order of their names: for any two names, after any number of rows, `view` is at most
      one row behind `other`, and not behind at all when its name comes first, unless all its good rows are out. */
  lemma TurnsInNameOrder(rows: seq<DriftRow>, p: nat, other: string, view: string)
    requires p <= |Balanced(rows)|
    ensures Fair(Served(Balanced(rows), p, ViewOf, other), Served(Balanced(rows), p, ViewOf, view),
                 |Filter(GoodRows(rows), HasKey(ViewOf, view))|, view != other && StrLe(view, other))
  {
    ServedOf(rows, p, other);
    ServedOf(rows, p, view);
    if Filter(GoodRows(rows), HasKey(ViewOf, other)) != [] && Filter(GoodRows(rows), HasKey(ViewOf, view)) != [] {
      var j := ViewIndex(rows, other);
      var k := ViewIndex(rows, view);
      EarlierName(rows, j, k);
      BaselineFair(rows, p, j, k);
    }
  }

  lemma BaselineLength(rows: seq<DriftRow>, windowSize: int, other: nat)
    requires windowSize > 0
    ensures var b := BaselineRows(rows, windowSize).rows;
      && b <= Balanced(rows)
      && |b| % windowSize == 0
      && |b| <= |GoodRows(rows)| < |b| + windowSize
      && (other * windowSize <= |GoodRows(rows)| ==> other * windowSize <= |b|)
  {
    BalancedPermutes(rows);
    CompleteCountIsLargest(|Balanced(rows)|, windowSize, other);
    MultipleHasNoRest(|Balanced(rows)| / windowSize, windowSize);
  }

  lemma MultipleHasNoRest(q: nat, w: nat)
    requires w > 0
    ensures (q * w) % w == 0
  {
    var r, s := (q * w) % w, (q * w) / w;
    assert q * w == w * s + r;
    if s < q {
      ScaledLe(s + 1, q, w);
    } else if s > q {
      ScaledLe(q + 1, s, w);
    }
  }

  /** Where P4 starts on a window boundary, no window is mixed. */
  lemma AlignedWindows(events: seq<CycleEvent>, w: nat, q: nat, boundary: nat, k: nat)
    requires w > 0 && boundary == q * w && DriftObservation.TwoPhaseEvents(events, boundary)
      && k < |DriftObservation.Windows(events, w)|
    ensures var window := DriftObservation.Windows(events, w)[k];
      CountIf(window, DriftObservation.IsP4Event) == if k < q then 0 else |window|
  {
    if k < q {
      ScaledLe(k + 1, q, w);
      DriftObservation.PureWindow(events, boundary, w, k);
    } else {
      ScaledLe(q, k, w);
      DriftObservation.P4Window(events, boundary, w, k);
    }
  }

  lemma BaselineSize(rows: seq<DriftRow>, windowSize: nat)
    requires windowSize > 0
    ensures |BaselineRows(rows, windowSize).rows| == (|GoodRows(rows)| / windowSize) * windowSize
  {
    BalancedPermutes(rows);
    CompleteCountIsLargest(|Balanced(rows)|, windowSize, 0);
  }

  /** Replaying the baseline and then P4 rows gives no mixed window. */
  lemma BaselineLeavesNoMixedWindow(rows: seq<DriftRow>, windowSize: nat, events: seq<CycleEvent>, k: nat)
    requires windowSize > 0 && DriftObservation.TwoPhaseEvents(events, |BaselineRows(rows, windowSize).rows|)
    requires k < |DriftObservation.Windows(events, windowSize)|
    ensures var window := DriftObservation.Windows(events, windowSize)[k];
      CountIf(window, DriftObservation.IsP4Event) == if k < |GoodRows(rows)| / windowSize then 0 else |window|
  {
    BaselineSize(rows, windowSize);
    AlignedWindows(events, windowSize, |GoodRows(rows)| / windowSize, |BaselineRows(rows, windowSize).rows|, k);
  }

  // ---------------------------------------------------------------------------- the loop

  type Buckets = map<string, seq<DriftRow>>

  ghost predicate Holds(buckets: Buckets, views: seq<string>, queues: seq<seq<DriftRow>>) {
    && |queues| == |views| && Distinct(views)
    && forall k :: 0 <= k < |views| ==> views[k] in buckets && buckets[views[k]] == queues[k]
  }

  /** One pass over the views: pop the first row of every bucket that still has one. */
  method OneRound(buckets: Buckets, views: seq<string>, ghost queues: seq<seq<DriftRow>>)
    returns (taken: seq<DriftRow>, left: Buckets)
    requires Holds(buckets, views, queues)
    ensures taken == Heads(queues) && Holds(left, views, Tails(queues))
  {
    taken, left := [], buckets;
    for i := 0 to |views|
      invariant taken == Heads(queues[..i])
      invariant forall k :: 0 <= k < |views| ==>
        views[k] in left && left[views[k]] == if k < i then Rest(queues[k]) else queues[k]
    {
      assert queues[..i + 1][..i] == queues[..i];
      var bucket := left[views[i]];
      if bucket != [] {
        taken := taken + [bucket[0]];
        left := left[views[i] := bucket[1..]];
      }
    }
    assert queues[..|views|] == queues;
  }

  /** `while any(buckets.values())` */
  method Drain(start: Buckets, views: seq<string>, ghost all: seq<seq<DriftRow>>) returns (balanced: seq<DriftRow>)
    requires Holds(start, views, all)
    ensures balanced == Drained(all)
  {
    var buckets := start;
    ghost var queues := all;
    balanced := [];
    while exists k :: 0 <= k < |views| && buckets[views[k]] != []
      invariant Holds(buckets, views, queues)
      invariant balanced + Drained(queues) == Drained(all)
      decreases Total(queues)
    {
      TailsShrink(queues);
      NoHeads(queues);
      var taken: seq<DriftRow>;
      taken, buckets := OneRound(buckets, views, queues);
      balanced := balanced + taken;
      queues := Tails(queues);
    }
    NoHeads(queues);
  }

  lemma NextGoodRow(rows: seq<DriftRow>, i: nat)
    requires i < |rows|
    ensures GroupBy(GoodRows(rows[..i + 1]), ViewOf)
      == if IsGoodConformingRow(rows[i]) then Append(GroupBy(GoodRows(rows[..i]), ViewOf), ViewOf(rows[i]), rows[i])
         else GroupBy(GoodRows(rows[..i]), ViewOf)
  {
    assert rows[..i + 1] == rows[..i] + [rows[i]];
    FilterSnoc(rows[..i], rows[i], IsGoodConformingRow);
    if IsGoodConformingRow(rows[i]) {
      assert GoodRows(rows[..i + 1]) == GoodRows(rows[..i]) + [rows[i]];
      GroupBySnoc(GoodRows(rows[..i]), rows[i], ViewOf);
    } else {
      assert GoodRows(rows[..i + 1]) == GoodRows(rows[..i]);
    }
  }

  /** `buckets.setdefault(view_pairs, []).append(row)` for every good conforming row. */
  method GroupByView(rows: seq<DriftRow>) returns (buckets: Groups<string, DriftRow>)
    ensures buckets == GroupBy(GoodRows(rows), ViewOf)
  {
    buckets := [];
    for i := 0 to |rows|
      invariant buckets == GroupBy(GoodRows(rows[..i]), ViewOf)
    {
      NextGoodRow(rows, i);
      if IsGoodConformingRow(rows[i]) {
        buckets := Append(buckets, ViewOf(rows[i]), rows[i]);
      }
    }
    assert rows[..|rows|] == rows;
  }

  /** Every bucket sorted in place; the queues by name. */
  method SortBuckets(groups: Groups<string, DriftRow>) returns (buckets: Buckets)
    requires Valid(groups)
    ensures buckets.Keys == set name | name in Names(groups)
    ensures forall k :: 0 <= k < |groups| ==>
      groups[k].0 in buckets && buckets[groups[k].0] == Sorted(groups[k].1, RowLe)
  {
    buckets := map[];
    for i := 0 to |groups|
      invariant buckets.Keys == set name | name in Names(groups[..i])
      invariant forall k :: 0 <= k < i ==> groups[k].0 in buckets && buckets[groups[k].0] == Sorted(groups[k].1, RowLe)
    {
      assert Names(groups[..i + 1]) == Names(groups[..i]) + [groups[i].0];
      buckets := buckets[groups[i].0 := Sorted(groups[i].1, RowLe)];
    }
    assert groups[..|groups|] == groups;
  }

  lemma BucketsHoldViews(rows: seq<DriftRow>, groups: Groups<string, DriftRow>, buckets: Buckets)
    requires groups == GroupBy(GoodRows(rows), ViewOf)
    requires forall k :: 0 <= k < |groups| ==>
      groups[k].0 in buckets && buckets[groups[k].0] == Sorted(groups[k].1, RowLe)
    ensures Holds(buckets, Views(rows), QueuesOf(rows, Views(rows)))
  {
    var views := Views(rows);
    ViewsExact(rows);
    GroupByValid(GoodRows(rows), ViewOf);
    SortedPermutes(Names(groups), StrLe);
    forall j | 0 <= j < |views| ensures views[j] in buckets && buckets[views[j]] == RowsOfView(rows, views[j]) {
      assert views[j] in multiset(Names(groups));
      var k :| 0 <= k < |groups| && Names(groups)[k] == views[j];
      LookupAt(groups, k);
      GroupByLookup(GoodRows(rows), ViewOf, views[j]);
    }
  }

  method BalancedBaselineRows(rows: seq<DriftRow>, windowSize: int) returns (r: Baseline)
    ensures r == BaselineRows(rows, windowSize)
  {
    if windowSize <= 0 { return WindowSizeNotPositive; }
    var groups := GroupByView(rows);
    GroupByValid(GoodRows(rows), ViewOf);
    var buckets := SortBuckets(groups);
    var views := Sorted(Names(groups), StrLe);
    BucketsHoldViews(rows, groups, buckets);
    var balanced := Drain(buckets, views, QueuesOf(rows, views));
    CompleteCountIsLargest(|balanced|, windowSize, 0);
    r := Rows(balanced[..CompleteCount(|balanced|, windowSize)]);
  }
}

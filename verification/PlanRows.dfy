/** Rows of a replay plan, as the data-preparation scripts read them from CSV. */
module PlanRows {
  import opened ReplayEvents

  /** `sourceEventId` is `source_event_id` or, when that is empty, `event_id`. */
  datatype PlanRow = PlanRow(sourceEventId: string, sourceClass: string, sourceTimestamp: string, isDefective: bool)

  /** A `collections.Counter`: its keys in order of first appearance, with their counts. */
  type Counter = seq<(string, nat)>

  function Keys(counts: Counter): seq<string> {
    seq(|counts|, i requires 0 <= i < |counts| => counts[i].0)
  }

  function Values(counts: Counter): seq<nat> {
    seq(|counts|, i requires 0 <= i < |counts| => counts[i].1)
  }

  /** `counts[key] += 1` */
  function Increment(counts: Counter, key: string): Counter {
    if counts == [] then [(key, 1)]
    else if counts[0].0 == key then [(key, counts[0].1 + 1)] + counts[1..]
    else [counts[0]] + Increment(counts[1..], key)
  }

  function CountOf(counts: Counter, key: string): nat {
    if counts == [] then 0 else if counts[0].0 == key then counts[0].1 else CountOf(counts[1..], key)
  }

  function CountGood(rows: seq<PlanRow>): Counter {
    if rows == [] then []
    else
      var before, last := CountGood(rows[..|rows| - 1]), rows[|rows| - 1];
      if last.isDefective then before else Increment(before, last.sourceClass)
  }

  predicate InBucket(row: PlanRow, klass: string, defective: bool) {
    row.sourceClass == klass && row.isDefective == defective
  }

  function InBucketOf(klass: string, defective: bool): PlanRow -> bool {
    (r: PlanRow) => InBucket(r, klass, defective)
  }

  ghost predicate WellFormed(counts: Counter) {
    && (forall i, j :: 0 <= i < j < |counts| ==> counts[i].0 != counts[j].0)
    && (forall i :: 0 <= i < |counts| ==> counts[i].1 > 0)
  }

  lemma {:induction false} IncrementCounts(counts: Counter, key: string, other: string)
    ensures CountOf(Increment(counts, key), other) == CountOf(counts, other) + if other == key then 1 else 0
  {
    if counts != [] && counts[0].0 != key { IncrementCounts(counts[1..], key, other); }
  }

  lemma {:induction false} IncrementKeys(counts: Counter, key: string, name: string)
    requires name in Keys(Increment(counts, key)) && name != key
    ensures name in Keys(counts)
  {
    if counts != [] && counts[0].0 != key {
      var i :| 0 <= i < |Increment(counts, key)| && Increment(counts, key)[i].0 == name;
      if i > 0 {
        assert Keys(Increment(counts[1..], key))[i - 1] == name;
        IncrementKeys(counts[1..], key, name);
        var j :| 0 <= j < |counts[1..]| && counts[1..][j].0 == name;
        assert Keys(counts)[j + 1] == name;
      } else {
        assert Keys(counts)[0] == name;
      }
    } else if counts != [] {
      var i :| 0 <= i < |counts| && Increment(counts, key)[i].0 == name;
      assert Keys(counts)[i] == name;
    }
  }

  lemma {:induction false} IncrementWellFormed(counts: Counter, key: string)
    requires WellFormed(counts)
    ensures WellFormed(Increment(counts, key))
  {
    if counts != [] && counts[0].0 != key {
      IncrementWellFormed(counts[1..], key);
      var rest := Increment(counts[1..], key);
      forall i | 0 <= i < |rest| ensures rest[i].0 != counts[0].0 {
        assert Keys(rest)[i] == rest[i].0;
        if rest[i].0 != key {
          IncrementKeys(counts[1..], key, rest[i].0);
          var j :| 0 <= j < |counts[1..]| && Keys(counts[1..])[j] == rest[i].0;
          assert counts[j + 1].0 == rest[i].0;
        }
      }
    }
  }

  lemma {:induction false} CountGoodWellFormed(rows: seq<PlanRow>)
    ensures WellFormed(CountGood(rows))
  {
    if rows != [] {
      CountGoodWellFormed(rows[..|rows| - 1]);
      IncrementWellFormed(CountGood(rows[..|rows| - 1]), rows[|rows| - 1].sourceClass);
    }
  }

  /** The counter holds, for every class, the number of its good rows. */
  lemma {:induction false} CountGoodCounts(rows: seq<PlanRow>, klass: string)
    ensures CountOf(CountGood(rows), klass) == CountIf(rows, InBucketOf(klass, false))
  {
    if rows != [] {
      var before, last := rows[..|rows| - 1], rows[|rows| - 1];
      CountGoodCounts(before, klass);
      assert rows == before + [last];
      CountIfAppend(before, [last], InBucketOf(klass, false));
      IncrementCounts(CountGood(before), last.sourceClass, klass);
    }
  }

  lemma {:induction false} CountAtIndex(counts: Counter, i: nat)
    requires WellFormed(counts) && i < |counts|
    ensures CountOf(counts, counts[i].0) == counts[i].1
  {
    if i > 0 { CountAtIndex(counts[1..], i - 1); }
  }
}

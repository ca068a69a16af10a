/** Values shared by the replay scripts: one processed event and the vocabulary of its fields. */
module ReplayEvents {

  datatype Option<+T> = None | Some(value: T)

  /** A binarised ROI mask, resized to 64 x 64 and flattened. */
  type Mask = m: seq<bool> | |m| == 64 * 64 witness seq(64 * 64, _ => false)

  /** What `process_replay_event` returns for one row of the replay plan. Only the fields that later
      decisions read are kept; `roiMask` is the mask vector loaded from the event's mask file. */
  datatype CycleEvent = CycleEvent(
    eventId: string,
    lotId: string,
    scenarioPhase: string,
    sourceClass: string,
    oracleVerdict: string,
    decision: string,
    roiQualityStatus: string,
    roiRatio: real,
    viewKey: string,
    roiMask: Option<Mask>,
    activeModelVersion: string)

  const CONFORME := "conforme"
  const DEFECTIVE := "defective"
  const STABLE_BASELINE := "stable_baseline_piece_b"
  const P4_PHASES := {"drift_piece_a_p4_suspected", "drift_piece_a_p4_confirmed", "correction_replay"}

  predicate IsP4Phase(phase: string) { phase in P4_PHASES }

  function LowerChar(c: char): char {
    if 'A' <= c <= 'Z' then (c - 'A') + 'a' else c
  }

  function Lower(s: string): string {
    seq(|s|, i requires 0 <= i < |s| => LowerChar(s[i]))
  }

  function CountIf<T>(xs: seq<T>, p: T -> bool): (n: nat)
    ensures n <= |xs|
  {
    if xs == [] then 0 else (if p(xs[0]) then 1 else 0) + CountIf(xs[1..], p)
  }

  lemma {:induction false} CountIfAppend<T>(xs: seq<T>, ys: seq<T>, p: T -> bool)
    ensures CountIf(xs + ys, p) == CountIf(xs, p) + CountIf(ys, p)
  {
    if xs == [] {
      assert xs + ys == ys;
    } else {
      CountIfAppend(xs[1..], ys, p);
      assert (xs + ys)[0] == xs[0] && (xs + ys)[1..] == xs[1..] + ys;
    }
  }

  lemma {:induction false} CountIfUniform<T>(xs: seq<T>, p: T -> bool, all: bool)
    requires forall x :: x in xs ==> p(x) == all
    ensures CountIf(xs, p) == if all then |xs| else 0
  {
    if xs != [] { CountIfUniform(xs[1..], p, all); }
  }

  lemma {:induction false} CountIfImplies<T>(xs: seq<T>, p: T -> bool, q: T -> bool)
    requires forall x :: x in xs && p(x) ==> q(x)
    ensures CountIf(xs, p) <= CountIf(xs, q)
  {
    if xs != [] { CountIfImplies(xs[1..], p, q); }
  }

  lemma CountIfRemove<T>(ys: seq<T>, k: nat, p: T -> bool)
    requires k < |ys|
    ensures CountIf(ys, p) == CountIf(ys[..k] + ys[k + 1..], p) + (if p(ys[k]) then 1 else 0)
  {
    CountIfAppend(ys[..k], ys[k..], p);
    CountIfAppend(ys[..k], ys[k + 1..], p);
    assert ys == ys[..k] + ys[k..] && ys[k..][1..] == ys[k + 1..];
  }

  lemma RemoveMatching<T>(xs: seq<T>, ys: seq<T>, k: nat)
    requires multiset(xs) == multiset(ys) && xs != [] && k < |ys| && ys[k] == xs[0]
    ensures multiset(ys[..k] + ys[k + 1..]) == multiset(xs[1..])
  {
    assert ys == ys[..k] + [ys[k]] + ys[k + 1..] && xs == [xs[0]] + xs[1..];
    assert multiset(xs[1..]) == multiset(xs) - multiset{xs[0]};
  }

  lemma {:induction false} CountIfPermutation<T>(xs: seq<T>, ys: seq<T>, p: T -> bool)
    requires multiset(xs) == multiset(ys)
    ensures CountIf(xs, p) == CountIf(ys, p)
  {
    if xs == [] {
      assert |multiset(ys)| == 0;
    } else {
      assert xs[0] in multiset(ys);
      var k :| 0 <= k < |ys| && ys[k] == xs[0];
      RemoveMatching(xs, ys, k);
      CountIfPermutation(xs[1..], ys[..k] + ys[k + 1..], p);
      CountIfRemove(ys, k, p);
    }
  }

  /** Positions of the elements that meet a condition. */
  ghost function Where<T(!new)>(xs: seq<T>, p: T -> bool): set<nat> {
    set i: nat | i < |xs| && p(xs[i])
  }

  lemma WhereSnoc<T(!new)>(xs: seq<T>, x: T, p: T -> bool)
    ensures Where(xs + [x], p) == Where(xs, p) + if p(x) then {|xs|} else {}
    ensures |Where(xs + [x], p)| == |Where(xs, p)| + if p(x) then 1 else 0
  {
  }

  lemma {:induction false} CountIsSize<T(!new)>(xs: seq<T>, p: T -> bool)
    ensures CountIf(xs, p) == |Where(xs, p)|
  {
    if xs == [] {
      assert Where(xs, p) == {};
    } else {
      var front, last := xs[..|xs| - 1], xs[|xs| - 1];
      CountIsSize(front, p);
      assert xs == front + [last];
      CountIfAppend(front, [last], p);
      WhereSnoc(front, last, p);
    }
  }

  lemma {:induction false} WhereElse<T(!new)>(xs: seq<T>, p: T -> bool, q: T -> bool)
    requires forall x :: q(x) == !p(x)
    ensures |Where(xs, p)| + |Where(xs, q)| == |xs|
  {
    if xs == [] {
      assert Where(xs, p) == {} == Where(xs, q);
    } else {
      var front, last := xs[..|xs| - 1], xs[|xs| - 1];
      WhereElse(front, p, q);
      assert xs == front + [last];
      WhereSnoc(front, last, p);
      WhereSnoc(front, last, q);
    }
  }
}

/** `sorted` in Python: the stable permutation of a list into the order of a comparison.

The scripts sort rows, scores, samples and label items with it. The comparison `le` is a total
preorder; a descending sort (`reverse=True`) is the same function with the comparison reversed,
because Python keeps the original order of tied elements in both directions. */
module Sorting {

  ghost predicate TotalPreorder<T(!new)>(le: (T, T) -> bool) {
    && (forall x, y :: le(x, y) || le(y, x))
    && (forall x, y, z :: le(x, y) && le(y, z) ==> le(x, z))
  }

  ghost predicate Ordered<T>(xs: seq<T>, le: (T, T) -> bool) {
    forall i, j :: 0 <= i < j < |xs| ==> le(xs[i], xs[j])
  }

  function Insert<T>(x: T, xs: seq<T>, le: (T, T) -> bool): (r: seq<T>)
    ensures |r| == |xs| + 1
  {
    if xs == [] || le(x, xs[0]) then [x] + xs
    else [xs[0]] + Insert(x, xs[1..], le)
  }

  function Sorted<T>(xs: seq<T>, le: (T, T) -> bool): (r: seq<T>)
    ensures |r| == |xs|
  {
    if xs == [] then [] else Insert(xs[0], Sorted(xs[1..], le), le)
  }

  lemma {:induction false} InsertPermutes<T>(x: T, xs: seq<T>, le: (T, T) -> bool)
    ensures multiset(Insert(x, xs, le)) == multiset{x} + multiset(xs)
  {
    if xs == [] || le(x, xs[0]) {
    } else {
      InsertPermutes(x, xs[1..], le);
      assert xs == [xs[0]] + xs[1..];
    }
  }

  lemma {:induction false} SortedPermutes<T>(xs: seq<T>, le: (T, T) -> bool)
    ensures multiset(Sorted(xs, le)) == multiset(xs)
  {
    if xs != [] {
      SortedPermutes(xs[1..], le);
      InsertPermutes(xs[0], Sorted(xs[1..], le), le);
      assert xs == [xs[0]] + xs[1..];
    }
  }

  lemma {:induction false} InsertOrdered<T(!new)>(x: T, xs: seq<T>, le: (T, T) -> bool)
    requires TotalPreorder(le) && Ordered(xs, le)
    ensures Ordered(Insert(x, xs, le), le)
  {
    if xs == [] || le(x, xs[0]) {
    } else {
      InsertOrdered(x, xs[1..], le);
      var tail := Insert(x, xs[1..], le);
      InsertPermutes(x, xs[1..], le);
      forall k | 0 <= k < |tail| ensures le(xs[0], tail[k]) {
        assert tail[k] in multiset(tail);
        assert tail[k] == x || tail[k] in xs[1..];
      }
    }
  }

  lemma {:induction false} SortedOrdered<T(!new)>(xs: seq<T>, le: (T, T) -> bool)
    requires TotalPreorder(le)
    ensures Ordered(Sorted(xs, le), le)
  {
    if xs != [] {
      SortedOrdered(xs[1..], le);
      InsertOrdered(xs[0], Sorted(xs[1..], le), le);
    }
  }

  /** Sorting a list that is already in order returns it unchanged. */
  lemma {:induction false} SortedFixed<T>(xs: seq<T>, le: (T, T) -> bool)
    requires Ordered(xs, le)
    ensures Sorted(xs, le) == xs
  {
    if xs != [] {
      SortedFixed(xs[1..], le);
      if |xs| > 1 { assert le(xs[0], xs[1]); }
      assert xs == [xs[0]] + xs[1..];
    }
  }

  function Filter<T>(xs: seq<T>, keep: T -> bool): (r: seq<T>)
    ensures forall x :: x in r ==> x in xs && keep(x)
  {
    if xs == [] then [] else (if keep(xs[0]) then [xs[0]] else []) + Filter(xs[1..], keep)
  }

  lemma FilterCons<T>(x: T, xs: seq<T>, keep: T -> bool)
    ensures Filter([x] + xs, keep) == (if keep(x) then [x] else []) + Filter(xs, keep)
  {
    assert ([x] + xs)[1..] == xs;
  }

  lemma {:induction false} FilterAppend<T>(xs: seq<T>, ys: seq<T>, keep: T -> bool)
    ensures Filter(xs + ys, keep) == Filter(xs, keep) + Filter(ys, keep)
  {
    if xs == [] {
      assert xs + ys == ys;
    } else {
      var x, rest := xs[0], xs[1..];
      var head := if keep(x) then [x] else [];
      calc {
        Filter(xs + ys, keep);
        { assert xs + ys == [x] + (rest + ys); }
        Filter([x] + (rest + ys), keep);
        { FilterCons(x, rest + ys, keep); }
        head + Filter(rest + ys, keep);
        { FilterAppend(rest, ys, keep); }
        head + (Filter(rest, keep) + Filter(ys, keep));
        (head + Filter(rest, keep)) + Filter(ys, keep);
        { FilterCons(x, rest, keep); assert xs == [x] + rest; }
        Filter(xs, keep) + Filter(ys, keep);
      }
    }
  }

  lemma {:induction false} FilterMember<T>(xs: seq<T>, keep: T -> bool, x: T)
    requires x in xs && keep(x)
    ensures x in Filter(xs, keep)
  {
    if x != xs[0] {
      assert x in xs[1..];
      FilterMember(xs[1..], keep, x);
    }
  }

  /** Filtering a list with a condition all (or none) of its elements meet keeps it (or empties it). */
  lemma {:induction false} FilterUniform<T>(xs: seq<T>, keep: T -> bool, all: bool)
    requires forall x :: x in xs ==> keep(x) == all
    ensures Filter(xs, keep) == if all then xs else []
  {
    if xs != [] {
      FilterUniform(xs[1..], keep, all);
      assert xs == [xs[0]] + xs[1..];
    }
  }

  /** Filtering a filtered list by a condition that implies (or excludes) the first. */
  lemma {:induction false} FilterOfFilter<T(!new)>(xs: seq<T>, first: T -> bool, second: T -> bool, all: bool)
    requires forall x :: second(x) ==> first(x) == all
    ensures Filter(Filter(xs, first), second) == if all then Filter(xs, second) else []
  {
    if xs != [] {
      FilterOfFilter(xs[1..], first, second, all);
      FilterAppend(if first(xs[0]) then [xs[0]] else [], Filter(xs[1..], first), second);
    }
  }

  lemma {:induction false} FilterPermutation<T>(xs: seq<T>, keep: T -> bool, x: T)
    ensures multiset(Filter(xs, keep))[x] == if keep(x) then multiset(xs)[x] else 0
  {
    if xs != [] {
      FilterPermutation(xs[1..], keep, x);
      assert xs == [xs[0]] + xs[1..];
      assert multiset(xs) == multiset{xs[0]} + multiset(xs[1..]);
      assert Filter(xs, keep) == (if keep(xs[0]) then [xs[0]] else []) + Filter(xs[1..], keep);
    }
  }

  /** Elements that the comparison does not tell from `z`. */
  function TiedWith<T>(le: (T, T) -> bool, z: T): T -> bool {
    y => le(z, y) && le(y, z)
  }

  /** Stability: elements tied with `z` appear in the sorted list in their original order. */
  lemma {:induction false} SortedStable<T(!new)>(xs: seq<T>, le: (T, T) -> bool, z: T)
    requires TotalPreorder(le)
    ensures Filter(Sorted(xs, le), TiedWith(le, z)) == Filter(xs, TiedWith(le, z))
  {
    if xs != [] {
      SortedStable(xs[1..], le, z);
      InsertStable(xs[0], Sorted(xs[1..], le), le, z);
    }
  }

  lemma {:induction false} InsertStable<T(!new)>(x: T, xs: seq<T>, le: (T, T) -> bool, z: T)
    requires TotalPreorder(le)
    ensures Filter(Insert(x, xs, le), TiedWith(le, z)) == Filter([x] + xs, TiedWith(le, z))
  {
    var tied := TiedWith(le, z);
    if xs != [] && !le(x, xs[0]) {
      var y, rest := xs[0], xs[1..];
      InsertStable(x, rest, le, z);
      FilterCons(y, Insert(x, rest, le), tied);
      FilterCons(x, rest, tied);
      FilterCons(x, xs, tied);
      NotBothTied(x, y, le, z);
    }
  }

  lemma NotBothTied<T(!new)>(x: T, y: T, le: (T, T) -> bool, z: T)
    requires TotalPreorder(le) && !le(x, y)
    ensures !TiedWith(le, z)(x) || !TiedWith(le, z)(y)
  {
    assert le(x, z) && le(z, y) ==> le(x, y);
  }

  lemma {:induction false} InsertBeforeLast<T(!new)>(x: T, xs: seq<T>, le: (T, T) -> bool)
    requires TotalPreorder(le) && xs != [] && le(x, xs[|xs| - 1])
    ensures Insert(x, xs, le)[|xs|] == xs[|xs| - 1]
  {
    if !le(x, xs[0]) { InsertBeforeLast(x, xs[1..], le); }
  }

  lemma {:induction false} InsertAtEnd<T>(x: T, xs: seq<T>, le: (T, T) -> bool)
    requires forall y :: y in xs ==> !le(x, y)
    ensures Insert(x, xs, le) == xs + [x]
  {
    if xs != [] { InsertAtEnd(x, xs[1..], le); }
  }

  /** A stable sort ends with the last of the greatest elements. */
  lemma {:induction false} SortedLast<T(!new)>(xs: seq<T>, le: (T, T) -> bool, k: nat)
    requires TotalPreorder(le) && k < |xs|
    requires forall j :: 0 <= j < |xs| ==> le(xs[j], xs[k])
    requires forall j :: k < j < |xs| ==> !le(xs[k], xs[j])
    ensures Sorted(xs, le)[|xs| - 1] == xs[k]
  {
    var rest := xs[1..];
    if k > 0 {
      assert forall j :: 0 <= j < |rest| ==> rest[j] == xs[j + 1];
      SortedLast(rest, le, k - 1);
      InsertBeforeLast(xs[0], Sorted(rest, le), le);
    } else {
      SortedPermutes(rest, le);
      forall y | y in Sorted(rest, le) ensures !le(xs[0], y) {
        assert y in multiset(Sorted(rest, le));
        assert y in rest;
        var j :| 0 <= j < |rest| && rest[j] == y;
        assert xs[j + 1] == y;
      }
      InsertAtEnd(xs[0], Sorted(rest, le), le);
    }
  }

  // ---------------------------------------------------------------------------- without repetition

  lemma {:induction false} InsertAlike<T>(x: T, xs: seq<T>, le: (T, T) -> bool, other: (T, T) -> bool)
    requires forall y :: y in xs ==> le(x, y) == other(x, y)
    ensures Insert(x, xs, le) == Insert(x, xs, other)
  {
    if xs != [] && !le(x, xs[0]) { InsertAlike(x, xs[1..], le, other); }
  }

  /** Comparisons that agree on every element and a later one sort alike. */
  lemma {:induction false} SortedAlike<T>(xs: seq<T>, le: (T, T) -> bool, other: (T, T) -> bool)
    requires forall i, j :: 0 <= i < j < |xs| ==> le(xs[i], xs[j]) == other(xs[i], xs[j])
    ensures Sorted(xs, le) == Sorted(xs, other)
  {
    if xs != [] {
      var rest := xs[1..];
      assert forall i :: 0 <= i < |rest| ==> rest[i] == xs[i + 1];
      SortedAlike(rest, le, other);
      SortedPermutes(rest, le);
      forall y | y in Sorted(rest, le) ensures le(xs[0], y) == other(xs[0], y) {
        assert y in multiset(Sorted(rest, le));
        assert y in rest;
        var i :| 0 <= i < |rest| && rest[i] == y;
        assert xs[i + 1] == y;
      }
      InsertAlike(xs[0], Sorted(rest, le), le, other);
    }
  }

  ghost predicate Distinct<T>(xs: seq<T>) {
    forall j, k :: 0 <= j < k < |xs| ==> xs[j] != xs[k]
  }

  lemma HeadNotInTail<T>(xs: seq<T>)
    requires Distinct(xs) && xs != []
    ensures xs[0] !in xs[1..] && xs == [xs[0]] + xs[1..]
  {
    forall k | 0 <= k < |xs[1..]| ensures xs[1..][k] != xs[0] { assert xs[1..][k] == xs[k + 1]; }
  }

  lemma {:induction false} DistinctMultiplicity<T>(xs: seq<T>, x: T)
    requires Distinct(xs)
    ensures multiset(xs)[x] <= 1
  {
    if xs != [] {
      DistinctMultiplicity(xs[1..], x);
      assert xs == [xs[0]] + xs[1..];
      HeadNotInTail(xs);
    }
  }

  lemma PermutationDistinct<T>(xs: seq<T>, ys: seq<T>)
    requires Distinct(xs) && multiset(xs) == multiset(ys)
    ensures Distinct(ys)
  {
    forall j, k | 0 <= j < k < |ys| ensures ys[j] != ys[k] {
      if ys[j] == ys[k] {
        assert ys == ys[..k] + ys[k..];
        assert ys[j] in multiset(ys[..k])
          && ys[k] in multiset(ys[k..]) by { assert ys[..k][j] == ys[j] && ys[k..][0] == ys[k]; }
        DistinctMultiplicity(xs, ys[k]);
        assert false;
      }
    }
  }

  /** Reordering pairs keeps their keys distinct. */
  lemma DistinctKeysPermuted<V>(a: seq<(string, V)>, b: seq<(string, V)>, i: nat, j: nat)
    requires multiset(a) == multiset(b) && i < j < |b|
    requires forall x, y :: 0 <= x < y < |a| ==> a[x].0 != a[y].0
    ensures b[i].0 != b[j].0
  {
    PermutationDistinct(a, b);
    assert b[i] in multiset(a) && b[j] in multiset(a);
    var x :| 0 <= x < |a| && a[x] == b[i];
    var y :| 0 <= y < |a| && a[y] == b[j];
    assert b[i] != b[j];
    assert x != y;
  }

  lemma HeadIsLeast<T(!new)>(xs: seq<T>, le: (T, T) -> bool, x: T)
    requires Ordered(xs, le) && TotalPreorder(le) && x in xs
    ensures le(xs[0], x)
  {
    assert le(x, x);
    var i :| 0 <= i < |xs| && xs[i] == x;
  }

  /** Under an antisymmetric order a list has only one sorted arrangement. */
  lemma {:induction false} OrderedUnique<T(!new)>(a: seq<T>, b: seq<T>, le: (T, T) -> bool)
    requires TotalPreorder(le) && forall x, y :: le(x, y) && le(y, x) ==> x == y
    requires multiset(a) == multiset(b) && Ordered(a, le) && Ordered(b, le)
    ensures a == b
  {
    assert |multiset(a)| == |a| && |multiset(b)| == |b|;
    if a != [] {
      assert a[0] in multiset(b) && b[0] in multiset(a);
      HeadIsLeast(a, le, b[0]);
      HeadIsLeast(b, le, a[0]);
      RemoveHead(a, b);
      OrderedUnique(a[1..], b[1..], le);
      assert a == [a[0]] + a[1..] && b == [b[0]] + b[1..];
    }
  }

  lemma RemoveHead<T>(a: seq<T>, b: seq<T>)
    requires multiset(a) == multiset(b) && a != [] && b != [] && a[0] == b[0]
    ensures multiset(a[1..]) == multiset(b[1..])
  {
    assert a == [a[0]] + a[1..] && b == [b[0]] + b[1..];
    assert multiset(a[1..]) == multiset(a) - multiset{a[0]};
    assert multiset(b[1..]) == multiset(b) - multiset{b[0]};
  }

  /** Python compares strings by code point, a proper prefix first. */
  predicate StrLe(a: string, b: string) {
    a == "" || (b != "" && (a[0] < b[0] || (a[0] == b[0] && StrLe(a[1..], b[1..]))))
  }

  lemma {:induction false} StrLeTotal(a: string, b: string)
    ensures StrLe(a, b) || StrLe(b, a)
    ensures StrLe(a, b) && StrLe(b, a) ==> a == b
  {
    if a != "" && b != "" {
      StrLeTotal(a[1..], b[1..]);
      assert a == [a[0]] + a[1..] && b == [b[0]] + b[1..];
    }
  }

  lemma {:induction false} StrLeTransitive(a: string, b: string, c: string)
    requires StrLe(a, b) && StrLe(b, c)
    ensures StrLe(a, c)
  {
    if a != "" && b != "" && c != "" && a[0] == b[0] == c[0] {
      StrLeTransitive(a[1..], b[1..], c[1..]);
    }
  }

  lemma StrLeIsOrder()
    ensures TotalPreorder(StrLe)
    ensures forall a, b :: StrLe(a, b) && StrLe(b, a) ==> a == b
  {
    forall a, b ensures StrLe(a, b) || StrLe(b, a) ensures StrLe(a, b) && StrLe(b, a) ==> a == b { StrLeTotal(a, b); }
    forall a, b, c | StrLe(a, b) && StrLe(b, c) ensures StrLe(a, c) { StrLeTransitive(a, b, c); }
  }

  /** Python compares tuples by their first differing component. */
  predicate PairLe(a: (string, string), b: (string, string)) {
    if a.0 == b.0 then StrLe(a.1, b.1) else StrLe(a.0, b.0)
  }

  lemma PairLeIsOrder()
    ensures TotalPreorder(PairLe)
    ensures forall a, b :: PairLe(a, b) && PairLe(b, a) ==> a == b
  {
    StrLeIsOrder();
  }
}

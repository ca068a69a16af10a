/** Python dictionaries of lists, filled with `setdefault(key, []).append(value)`: the keys keep their order
    of first appearance, the values of a key keep theirs. */
module Groups {
  import opened ReplayEvents
  import opened Sorting

  type Groups<K, V> = seq<(K, seq<V>)>

  /** `groups.get(key, [])` */
  function Lookup<K(==), V>(groups: Groups<K, V>, key: K): seq<V> {
    if groups == [] then []
    else if groups[0].0 == key then groups[0].1
    else Lookup(groups[1..], key)
  }

  function Append<K(==), V>(groups: Groups<K, V>, key: K, value: V): Groups<K, V> {
    if groups == [] then [(key, [value])]
    else if groups[0].0 == key then [(key, groups[0].1 + [value])] + groups[1..]
    else [groups[0]] + Append(groups[1..], key, value)
  }

  function Flatten<K, V>(groups: Groups<K, V>): seq<V> {
    if groups == [] then [] else groups[0].1 + Flatten(groups[1..])
  }

  function GroupBy<K(==), V>(xs: seq<V>, key: V -> K): Groups<K, V> {
    if xs == [] then []
    else Append(GroupBy(xs[..|xs| - 1], key), key(xs[|xs| - 1]), xs[|xs| - 1])
  }

  function HasKey<K(==), V>(key: V -> K, k: K): V -> bool {
    x => key(x) == k
  }

  /** Distinct keys, no empty list. */
  ghost predicate Valid<K, V>(groups: Groups<K, V>) {
    && (forall i, j :: 0 <= i < j < |groups| ==> groups[i].0 != groups[j].0)
    && (forall i :: 0 <= i < |groups| ==> groups[i].1 != [])
  }

  lemma {:induction false} LookupAppend<K, V>(groups: Groups<K, V>, key: K, value: V, other: K)
    ensures Lookup(Append(groups, key, value), other) == Lookup(groups, other) + if other == key then [value] else []
    ensures multiset(Flatten(Append(groups, key, value))) == multiset(Flatten(groups)) + multiset{value}
  {
    if groups != [] && groups[0].0 != key { LookupAppend(groups[1..], key, value, other); }
  }

  lemma {:induction false} AppendKeys<K, V>(groups: Groups<K, V>, key: K, value: V, i: nat)
    requires i < |Append(groups, key, value)|
    ensures || Append(groups, key, value)[i].0 == key
            || exists j :: 0 <= j < |groups| && groups[j].0 == Append(groups, key, value)[i].0
  {
    if groups != [] && groups[0].0 != key && i > 0 {
      AppendKeys(groups[1..], key, value, i - 1);
      if Append(groups, key, value)[i].0 != key {
        var j :| 0 <= j < |groups[1..]| && groups[1..][j].0 == Append(groups[1..], key, value)[i - 1].0;
        assert groups[j + 1].0 == Append(groups, key, value)[i].0;
      }
    } else if groups != [] {
      assert groups[0].0 == key || i == 0;
      if i > 0 { assert groups[i].0 == Append(groups, key, value)[i].0; }
    }
  }

  lemma {:induction false} AppendValid<K, V>(groups: Groups<K, V>, key: K, value: V)
    requires Valid(groups)
    ensures Valid(Append(groups, key, value))
  {
    if groups != [] && groups[0].0 != key {
      AppendValid(groups[1..], key, value);
      var rest := Append(groups[1..], key, value);
      forall i | 0 <= i < |rest| ensures rest[i].0 != groups[0].0 {
        AppendKeys(groups[1..], key, value, i);
        if rest[i].0 != key {
          var j :| 0 <= j < |groups[1..]| && groups[1..][j].0 == rest[i].0;
          assert groups[j + 1].0 == rest[i].0;
        }
      }
    }
  }

  lemma {:induction false} GroupByValid<K, V>(xs: seq<V>, key: V -> K)
    ensures Valid(GroupBy(xs, key))
  {
    if xs != [] {
      GroupByValid(xs[..|xs| - 1], key);
      AppendValid(GroupBy(xs[..|xs| - 1], key), key(xs[|xs| - 1]), xs[|xs| - 1]);
    }
  }

  lemma GroupBySnoc<K, V>(xs: seq<V>, x: V, key: V -> K)
    ensures GroupBy(xs + [x], key) == Append(GroupBy(xs, key), key(x), x)
  {
    assert (xs + [x])[..|xs|] == xs;
  }

  /** The list of a key holds exactly the values with that key, in order. */
  lemma {:induction false} GroupByLookup<K, V>(xs: seq<V>, key: V -> K, k: K)
    ensures Lookup(GroupBy(xs, key), k) == Filter(xs, HasKey(key, k))
  {
    if xs != [] {
      var front, last := xs[..|xs| - 1], xs[|xs| - 1];
      var own := if key(last) == k then [last] else [];
      calc {
        Lookup(GroupBy(xs, key), k);
        { GroupBySnoc(front, last, key); assert xs == front + [last]; }
        Lookup(Append(GroupBy(front, key), key(last), last), k);
        { LookupAppend(GroupBy(front, key), key(last), last, k); }
        Lookup(GroupBy(front, key), k) + own;
        { GroupByLookup(front, key, k); assert HasKey(key, k)(last) == (key(last) == k); }
        Filter(front, HasKey(key, k)) + own;
        { FilterSnoc(front, last, HasKey(key, k)); assert xs == front + [last]; }
        Filter(xs, HasKey(key, k));
      }
    }
  }

  lemma FilterSnoc<V>(xs: seq<V>, x: V, keep: V -> bool)
    ensures Filter(xs + [x], keep) == Filter(xs, keep) + if keep(x) then [x] else []
  {
    FilterAppend(xs, [x], keep);
  }

  lemma {:induction false} LookupAt<K, V>(groups: Groups<K, V>, i: nat)
    requires Valid(groups) && i < |groups|
    ensures Lookup(groups, groups[i].0) == groups[i].1
  {
    if i > 0 { LookupAt(groups[1..], i - 1); }
  }

  lemma {:induction false} LookupMissing<K, V>(groups: Groups<K, V>, key: K)
    requires Valid(groups)
    ensures Lookup(groups, key) != [] <==> exists i :: 0 <= i < |groups| && groups[i].0 == key
  {
    if groups != [] && groups[0].0 != key {
      LookupMissing(groups[1..], key);
      if i :| 0 <= i < |groups| && groups[i].0 == key { assert groups[1..][i - 1].0 == key; }
      if i :| 0 <= i < |groups[1..]| && groups[1..][i].0 == key { assert groups[i + 1].0 == key; }
    }
  }
}

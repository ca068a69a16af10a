/** Printing a label set (`_labels`, `_escape_label` in scripts/export_lifecycle_prometheus_backfill.py) and
    reading it back by the escaping rules of the OpenMetrics 1.0 text format. */
module LabelText {
  import opened ReplayEvents
  import opened Sorting

  /** `s.replace(c, by)` for a one-character pattern. */
  function Replace(s: string, c: char, text: string): string {
    if s == "" then "" else (if s[0] == c then text else [s[0]]) + Replace(s[1..], c, text)
  }

  function EscapeLabel(value: string): string {
    Replace(Replace(Replace(value, '\\', "\\\\"), '\n', "\\n"), '"', "\\\"")
  }

  function EscapeChar(c: char): string {
    if c == '\\' then "\\\\" else if c == '\n' then "\\n" else if c == '"' then "\\\"" else [c]
  }

  /** One pass over the value. */
  function Escaped(value: string): string {
    if value == "" then "" else EscapeChar(value[0]) + Escaped(value[1..])
  }

  lemma {:induction false} ReplaceAppend(a: string, b: string, c: char, text: string)
    ensures Replace(a + b, c, text) == Replace(a, c, text) + Replace(b, c, text)
  {
    if a == "" {
      assert a + b == b;
    } else {
      ReplaceAppend(a[1..], b, c, text);
      assert (a + b)[0] == a[0] && (a + b)[1..] == a[1..] + b;
      var head := if a[0] == c then text else [a[0]];
      assert (head + Replace(a[1..], c, text)) + Replace(b, c, text)
        == head + (Replace(a[1..], c, text) + Replace(b, c, text));
    }
  }

  lemma ReplaceOne(x: char, c: char, text: string)
    ensures Replace([x], c, text) == if x == c then text else [x]
  {
    assert [x][1..] == "" && Replace("", c, text) == "";
  }

  lemma ReplaceTwo(x: char, y: char, c: char, text: string)
    ensures Replace([x, y], c, text) == (if x == c then text else [x]) + (if y == c then text else [y])
  {
    ReplaceOne(y, c, text);
    assert [x, y][1..] == [y];
  }

  lemma EscapeOne(c: char)
    ensures EscapeLabel([c]) == EscapeChar(c)
  {
    ReplaceOne(c, '\\', "\\\\");
    if c == '\\' {
      ReplaceTwo('\\', '\\', '\n', "\\n");
      ReplaceTwo('\\', '\\', '"', "\\\"");
    } else if c == '\n' {
      ReplaceOne(c, '\n', "\\n");
      ReplaceTwo('\\', 'n', '"', "\\\"");
    } else {
      ReplaceOne(c, '\n', "\\n");
      ReplaceOne(c, '"', "\\\"");
    }
  }

  /** The three chained replacements are one character map: no later one touches what an earlier one wrote. */
  lemma {:induction false} ChainedReplaceIsOnePass(value: string)
    ensures EscapeLabel(value) == Escaped(value)
  {
    if value != "" {
      ChainedReplaceIsOnePass(value[1..]);
      var head, tail := [value[0]], value[1..];
      assert value == head + tail;
      EscapeOne(value[0]);
      var h1, t1 := Replace(head, '\\', "\\\\"), Replace(tail, '\\', "\\\\");
      ReplaceAppend(head, tail, '\\', "\\\\");
      var h2, t2 := Replace(h1, '\n', "\\n"), Replace(t1, '\n', "\\n");
      ReplaceAppend(h1, t1, '\n', "\\n");
      ReplaceAppend(h2, t2, '"', "\\\"");
    }
  }

  // ---------------------------------------------------------------------------- reading back

  /** Reads an escaped value up to its closing quote; None for a dangling or unknown escape. */
  function ReadValue(s: string): Option<(string, string)> {
    if s == "" then None
    else if s[0] == '"' then Some(("", s[1..]))
    else if s[0] == '\\' then
      if |s| < 2 then None
      else
        var meant := if s[1] == 'n' then Some('\n') else if s[1] == '"' || s[1] == '\\' then Some(s[1]) else None;
        if meant.None? then None else Prepend(meant.value, ReadValue(s[2..]))
    else Prepend(s[0], ReadValue(s[1..]))
  }

  function Prepend(c: char, read: Option<(string, string)>): Option<(string, string)> {
    match read
    case None => None
    case Some((value, rest)) => Some(([c] + value, rest))
  }

  lemma ReadEscapedChar(c: char, tail: string)
    ensures ReadValue(EscapeChar(c) + tail) == Prepend(c, ReadValue(tail))
  {
    var text := EscapeChar(c) + tail;
    if |EscapeChar(c)| == 2 {
      assert text[2..] == tail;
    } else {
      assert text[1..] == tail;
    }
  }

  /** Un-escaping inverts escaping for every string. */
  lemma {:induction false} UnescapeInverts(value: string, rest: string)
    ensures ReadValue(Escaped(value) + "\"" + rest) == Some((value, rest))
  {
    if value == "" {
      assert Escaped(value) + "\"" + rest == "\"" + rest;
      assert ("\"" + rest)[1..] == rest;
    } else {
      UnescapeInverts(value[1..], rest);
      var tail := Escaped(value[1..]) + "\"" + rest;
      ReadEscapedChar(value[0], tail);
      assert Escaped(value) + "\"" + rest == EscapeChar(value[0]) + tail;
      assert value == [value[0]] + value[1..];
    }
  }

  predicate IdentifierChar(c: char) { 'a' <= c <= 'z' || 'A' <= c <= 'Z' || '0' <= c <= '9' || c == '_' }

  predicate Identifier(s: string) {
    s != "" && !('0' <= s[0] <= '9') && forall i :: 0 <= i < |s| ==> IdentifierChar(s[i])
  }

  /** Reads up to the first `=`. */
  function ReadKey(s: string): Option<(string, string)> {
    if s == "" then None else if s[0] == '=' then Some(("", s[1..])) else Prepend(s[0], ReadKey(s[1..]))
  }

  lemma {:induction false} ReadKeyInverts(key: string, rest: string)
    requires forall i :: 0 <= i < |key| ==> IdentifierChar(key[i])
    ensures ReadKey(key + "=" + rest) == Some((key, rest))
  {
    if key == "" {
      assert key + "=" + rest == "=" + rest;
    } else {
      ReadKeyInverts(key[1..], rest);
      assert (key + "=" + rest)[1..] == key[1..] + "=" + rest;
      assert key == [key[0]] + key[1..];
    }
  }

  type Pair = (string, string)

  function Item(p: Pair): string { p.0 + "=" + ("\"" + (EscapeLabel(p.1) + "\"")) }

  /** `",".join(...)` of the items. */
  function Join(items: seq<Pair>): string {
    if items == [] then ""
    else if |items| == 1 then Item(items[0])
    else Item(items[0]) + ("," + Join(items[1..]))
  }

  /** `_labels`: a dictionary is its items in insertion order. */
  function Labels(items: seq<Pair>): string { Join(Sorted(items, PairLe)) }

  lemma {:induction false} ReadShortens(s: string)
    ensures ReadValue(s).Some? ==> |ReadValue(s).value.1| < |s|
    ensures ReadKey(s).Some? ==> |ReadKey(s).value.1| < |s|
    decreases |s|
  {
    if s != "" {
      ReadShortens(s[1..]);
      if |s| > 1 { ReadShortens(s[2..]); }
    }
  }

  /** One item from the front of a label text. */
  function ReadItem(s: string): (r: Option<(Pair, string)>)
    ensures r.Some? ==> |r.value.1| < |s|
  {
    ReadShortens(s);
    match ReadKey(s)
    case None => None
    case Some((key, afterKey)) =>
      if afterKey == "" || afterKey[0] != '"' then None
      else
        ReadShortens(afterKey[1..]);
        match ReadValue(afterKey[1..])
        case None => None
        case Some((value, rest)) => Some(((key, value), rest))
  }

  function ReadLabels(s: string): Option<seq<Pair>>
    decreases |s|
  {
    if s == "" then Some([])
    else match ReadItem(s)
      case None => None
      case Some((pair, rest)) =>
        if rest == "" then Some([pair])
        else if rest[0] != ',' then None
        else match ReadLabels(rest[1..])
          case None => None
          case Some(more) => Some([pair] + more)
  }

  lemma ReadItemInverts(p: Pair, rest: string)
    requires Identifier(p.0)
    ensures ReadItem(Item(p) + rest) == Some((p, rest))
  {
    ChainedReplaceIsOnePass(p.1);
    var quoted := "\"" + (EscapeLabel(p.1) + "\"");
    assert Item(p) + rest == p.0 + "=" + (quoted + rest);
    ReadKeyInverts(p.0, quoted + rest);
    assert (quoted + rest)[1..] == Escaped(p.1) + "\"" + rest;
    UnescapeInverts(p.1, rest);
  }

  lemma {:induction false} ReadJoinInverts(items: seq<Pair>)
    requires forall i :: 0 <= i < |items| ==> Identifier(items[i].0)
    ensures ReadLabels(Join(items)) == Some(items)
  {
    if |items| == 1 {
      ReadItemInverts(items[0], "");
      assert Item(items[0]) + "" == Item(items[0]) != "";
      assert items == [items[0]];
    } else if |items| > 1 {
      var rest := "," + Join(items[1..]);
      ReadItemInverts(items[0], rest);
      assert rest[1..] == Join(items[1..]);
      ReadJoinInverts(items[1..]);
      assert items == [items[0]] + items[1..];
    }
  }

  // ---------------------------------------------------------------------------- label sets

  function MapOf(items: seq<Pair>): map<string, string> {
    if items == [] then map[] else MapOf(items[..|items| - 1])[items[|items| - 1].0 := items[|items| - 1].1]
  }

  ghost predicate DistinctKeys(items: seq<Pair>) {
    forall i, j :: 0 <= i < j < |items| ==> items[i].0 != items[j].0
  }

  lemma {:induction false} MapOfContains(items: seq<Pair>, p: Pair)
    requires DistinctKeys(items)
    ensures p.0 in MapOf(items) && MapOf(items)[p.0] == p.1 <==> p in items
    ensures p.0 in MapOf(items) <==> exists i :: 0 <= i < |items| && items[i].0 == p.0
  {
    if items != [] {
      var front, last := items[..|items| - 1], items[|items| - 1];
      MapOfContains(front, p);
      assert items == front + [last];
      if i :| 0 <= i < |front| && front[i].0 == p.0 { assert items[i].0 == p.0; }
      if last.0 == p.0 { assert items[|items| - 1].0 == p.0; }
      if p in items && p != last { assert p in front; }
    }
  }

  /** Two orderings of the same items are the same dictionary. */
  lemma SameItemsSameMap(a: seq<Pair>, b: seq<Pair>)
    requires DistinctKeys(a) && DistinctKeys(b) && forall p :: p in a <==> p in b
    ensures MapOf(a) == MapOf(b)
  {
    forall k ensures k in MapOf(a) <==> k in MapOf(b) {
      MapOfContains(a, (k, ""));
      MapOfContains(b, (k, ""));
      if i :| 0 <= i < |a| && a[i].0 == k { assert a[i] in b; }
      if i :| 0 <= i < |b| && b[i].0 == k { assert b[i] in a; }
    }
    forall k | k in MapOf(a) ensures MapOf(a)[k] == MapOf(b)[k] {
      MapOfContains(a, (k, MapOf(a)[k]));
      MapOfContains(b, (k, MapOf(a)[k]));
    }
  }

  lemma SortedItems(items: seq<Pair>)
    requires DistinctKeys(items)
    ensures DistinctKeys(Sorted(items, PairLe))
    ensures forall p :: p in items <==> p in Sorted(items, PairLe)
  {
    var sorted := Sorted(items, PairLe);
    SortedPermutes(items, PairLe);
    forall p ensures p in items <==> p in sorted { assert p in multiset(items) <==> p in multiset(sorted); }
    forall i, j | 0 <= i < j < |sorted| ensures sorted[i].0 != sorted[j].0 {
      DistinctKeysPermuted(items, sorted, i, j);
    }
  }

  /** Reading the printed labels back recovers the label set. */
  lemma LabelsRoundTrip(items: seq<Pair>)
    requires DistinctKeys(items) && forall i :: 0 <= i < |items| ==> Identifier(items[i].0)
    ensures ReadLabels(Labels(items)).Some?
    ensures MapOf(ReadLabels(Labels(items)).value) == MapOf(items)
  {
    var sorted := Sorted(items, PairLe);
    SortedItems(items);
    forall i | 0 <= i < |sorted| ensures Identifier(sorted[i].0) {
      assert sorted[i] in items;
    }
    ReadJoinInverts(sorted);
    SameItemsSameMap(items, sorted);
  }

  lemma SameMapSameItems(a: seq<Pair>, b: seq<Pair>)
    requires DistinctKeys(a) && DistinctKeys(b) && MapOf(a) == MapOf(b)
    ensures multiset(a) == multiset(b)
  {
    forall p ensures multiset(a)[p] == multiset(b)[p] {
      MapOfContains(a, p);
      MapOfContains(b, p);
      DistinctMultiplicity(a, p);
      DistinctMultiplicity(b, p);
    }
  }

  lemma SameItemsSameOrder(a: seq<Pair>, b: seq<Pair>)
    requires multiset(a) == multiset(b)
    ensures Sorted(a, PairLe) == Sorted(b, PairLe)
  {
    PairLeIsOrder();
    SortedPermutes(a, PairLe);
    SortedPermutes(b, PairLe);
    SortedOrdered(a, PairLe);
    SortedOrdered(b, PairLe);
    OrderedUnique(Sorted(a, PairLe), Sorted(b, PairLe), PairLe);
  }

  /** Label text is canonical: two dictionaries print the same text exactly when they are equal. */
  lemma LabelsCanonical(a: seq<Pair>, b: seq<Pair>)
    requires DistinctKeys(a) && DistinctKeys(b)
    requires forall i :: 0 <= i < |a| ==> Identifier(a[i].0)
    requires forall i :: 0 <= i < |b| ==> Identifier(b[i].0)
    ensures Labels(a) == Labels(b) <==> MapOf(a) == MapOf(b)
  {
    LabelsRoundTrip(a);
    LabelsRoundTrip(b);
    if MapOf(a) == MapOf(b) {
      SameMapSameItems(a, b);
      SameItemsSameOrder(a, b);
    }
  }
}

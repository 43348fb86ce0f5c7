/** Sequence helpers shared by the views and services: `reduce` sums,
    `filter`, insertion-ordered `Set`s, the stable descending `sort` of the
    statistics screens and the `Map`-based grouping ("tally") they fill. */
module Seqs {

  // ---------------------------------------------------------------- sums

  /** `s.reduce((acc, x) => acc + f(x), 0)`, accumulated from the front. */
  function Sum<T>(s: seq<T>, f: T -> int): int
  {
    if s == [] then 0 else Sum(s[..|s| - 1], f) + f(s[|s| - 1])
  }

  lemma {:induction false} SumAppend<T>(a: seq<T>, b: seq<T>, f: T -> int)
    ensures Sum(a + b, f) == Sum(a, f) + Sum(b, f)
    decreases |b|
  {
    if b == [] {
      assert a + b == a;
    } else {
      var b' := b[..|b| - 1];
      assert (a + b)[..|a + b| - 1] == a + b';
      SumAppend(a, b', f);
    }
  }

  lemma {:induction false} SumNonNegative<T>(s: seq<T>, f: T -> int)
    requires forall i :: 0 <= i < |s| ==> f(s[i]) >= 0
    ensures Sum(s, f) >= 0
    decreases |s|
  {
    if s != [] {
      SumNonNegative(s[..|s| - 1], f);
    }
  }

  // ---------------------------------------------------------------- filter

  /** `s.filter(keep)`: the kept elements, in their original order. */
  function Filter<T>(s: seq<T>, keep: T -> bool): (r: seq<T>)
    ensures |r| <= |s|
    ensures forall i :: 0 <= i < |r| ==> r[i] in s && keep(r[i])
    ensures forall i :: 0 <= i < |s| && keep(s[i]) ==> s[i] in r
  {
    if s == [] then []
    else Filter(s[..|s| - 1], keep) + (if keep(s[|s| - 1]) then [s[|s| - 1]] else [])
  }

  lemma {:induction false} FilterAppend<T>(a: seq<T>, b: seq<T>, keep: T -> bool)
    ensures Filter(a + b, keep) == Filter(a, keep) + Filter(b, keep)
    decreases |b|
  {
    if b == [] {
      assert a + b == a;
    } else {
      var b' := b[..|b| - 1];
      assert (a + b)[..|a + b| - 1] == a + b';
      FilterAppend(a, b', keep);
    }
  }

  /** Filtering twice is filtering once by both conditions. */
  lemma {:induction false} FilterFilter<T>(s: seq<T>, first: T -> bool, second: T -> bool, both: T -> bool)
    requires forall x :: both(x) == (first(x) && second(x))
    ensures Filter(Filter(s, first), second) == Filter(s, both)
    decreases |s|
  {
    if s != [] {
      var p := s[..|s| - 1];
      var last := s[|s| - 1];
      var tail := if first(last) then [last] else [];
      FilterFilter(p, first, second, both);
      FilterAppend(Filter(p, first), tail, second);
      if first(last) {
        assert tail[..0] == [];
      }
    }
  }

  /** Filtering with a predicate every element satisfies changes nothing. */
  lemma {:induction false} FilterAll<T>(s: seq<T>, keep: T -> bool)
    requires forall i :: 0 <= i < |s| ==> keep(s[i])
    ensures Filter(s, keep) == s
    decreases |s|
  {
    if s != [] {
      var p := s[..|s| - 1];
      assert forall i :: 0 <= i < |p| ==> p[i] == s[i];
      FilterAll(p, keep);
      assert s == p + [s[|s| - 1]];
    }
  }

  // ---------------------------------------------------------------- positions

  predicate NoDup<T(==)>(s: seq<T>)
  {
    forall i, j :: 0 <= i < j < |s| ==> s[i] != s[j]
  }

  /** The first position of `x` in `s` (`indexOf`, `findIndex`). */
  function IndexOf<T(==)>(s: seq<T>, x: T): (i: nat)
    requires x in s
    ensures i < |s| && s[i] == x && x !in s[..i]
  {
    if s[0] == x then 0 else 1 + IndexOf(s[1..], x)
  }

  lemma IndexOfUnique<T>(s: seq<T>, x: T, i: nat)
    requires i < |s| && s[i] == x && x !in s[..i]
    ensures IndexOf(s, x) == i
  {
    var j := IndexOf(s, x);
    assert forall k :: 0 <= k < i ==> s[..i][k] == s[k];
    assert forall k :: 0 <= k < j ==> s[..j][k] == s[k];
  }

  lemma IndexOfPrefix<T>(s: seq<T>, k: nat, x: T)
    requires k <= |s| && x in s[..k]
    ensures IndexOf(s, x) == IndexOf(s[..k], x)
  {
    var i := IndexOf(s[..k], x);
    assert s[..k][..i] == s[..i];
    IndexOfUnique(s, x, i);
  }

  /** `s.findIndex(p)`: the first position whose element satisfies `p`, or -1. */
  method FindIndex<T>(s: seq<T>, p: T -> bool) returns (index: int)
    ensures -1 <= index < |s|
    ensures index == -1 <==> forall i :: 0 <= i < |s| ==> !p(s[i])
    ensures index >= 0 ==> p(s[index]) && forall i :: 0 <= i < index ==> !p(s[i])
  {
    index := 0;
    while index < |s|
      invariant 0 <= index <= |s|
      invariant forall i :: 0 <= i < index ==> !p(s[i])
    {
      if p(s[index]) {
        return;
      }
      index := index + 1;
    }
    index := -1;
  }

  // ---------------------------------------------------------------- insertion-ordered sets

  /** `Array.from(new Set(s))`: every distinct element once, in the order in
      which it was first seen. */
  function Dedup<T(==)>(s: seq<T>): (r: seq<T>)
    ensures NoDup(r)
    ensures forall i :: 0 <= i < |r| ==> r[i] in s
    ensures forall i :: 0 <= i < |s| ==> s[i] in r
  {
    if s == [] then []
    else
      var p := Dedup(s[..|s| - 1]);
      if s[|s| - 1] in p then p else p + [s[|s| - 1]]
  }

  /** The elements of `Dedup(s)` appear in the order of their first occurrence in `s`. */
  lemma {:induction false} DedupFirstSeen<T>(s: seq<T>)
    ensures forall i, j :: 0 <= i < j < |Dedup(s)| ==> IndexOf(s, Dedup(s)[i]) < IndexOf(s, Dedup(s)[j])
    decreases |s|
  {
    if s != [] {
      var p := s[..|s| - 1];
      DedupFirstSeen(p);
      FirstSeenExtend(s, Dedup(p), Dedup(s));
    }
  }

  /** Appending the last element of `s`, when it is new, to a sequence listed
      in order of first occurrence in the rest of `s` keeps that order. */
  lemma FirstSeenExtend<T>(s: seq<T>, d: seq<T>, r: seq<T>)
    requires s != []
    requires forall i :: 0 <= i < |d| ==> d[i] in s[..|s| - 1]
    requires s[|s| - 1] in s[..|s| - 1] ==> s[|s| - 1] in d
    requires forall i, j :: 0 <= i < j < |d| ==> IndexOf(s[..|s| - 1], d[i]) < IndexOf(s[..|s| - 1], d[j])
    requires r == if s[|s| - 1] in d then d else d + [s[|s| - 1]]
    requires forall i :: 0 <= i < |r| ==> r[i] in s
    ensures forall i, j :: 0 <= i < j < |r| ==> IndexOf(s, r[i]) < IndexOf(s, r[j])
  {
    var n := |s|;
    var p := s[..n - 1];
    var last := s[n - 1];
    forall i, j | 0 <= i < j < |r|
      ensures IndexOf(s, r[i]) < IndexOf(s, r[j])
    {
      assert r[i] == d[i];
      if j < |d| {
        assert r[j] == d[j];
      } else {
        assert r[j] == last && last !in p;
      }
      IndexOfBefore(s, r[i], r[j]);
    }
  }

  /** An element of the front of `s` comes before one that first occurs
      later in the front, or only at the end. */
  lemma IndexOfBefore<T>(s: seq<T>, x: T, y: T)
    requires s != [] && x in s[..|s| - 1] && y in s
    requires y in s[..|s| - 1] ==> IndexOf(s[..|s| - 1], x) < IndexOf(s[..|s| - 1], y)
    requires y !in s[..|s| - 1] ==> y == s[|s| - 1]
    ensures IndexOf(s, x) < IndexOf(s, y)
  {
    IndexOfPrefix(s, |s| - 1, x);
    if y in s[..|s| - 1] {
      IndexOfPrefix(s, |s| - 1, y);
    } else {
      IndexOfUnique(s, y, |s| - 1);
    }
  }

  /** A sequence without duplicates is its own insertion-ordered set. */
  lemma {:induction false} DedupOfNoDup<T>(s: seq<T>)
    requires NoDup(s)
    ensures Dedup(s) == s
    decreases |s|
  {
    if s != [] {
      var p := s[..|s| - 1];
      DedupOfNoDup(p);
      assert s[|s| - 1] !in p;
      assert s == p + [s[|s| - 1]];
    }
  }

  // ---------------------------------------------------------------- slicing

  /** `s.slice(0, n)`. */
  function Take<T>(s: seq<T>, n: nat): seq<T>
  {
    if |s| <= n then s else s[..n]
  }

  // ---------------------------------------------------------------- stable descending sort

  predicate SortedDesc<T>(s: seq<T>, key: T -> int)
  {
    forall i, j :: 0 <= i < j < |s| ==> key(s[i]) >= key(s[j])
  }

  /** Places `x` after every element whose key is at least its own. */
  function InsertDesc<T>(x: T, s: seq<T>, key: T -> int): (r: seq<T>)
    ensures multiset(r) == multiset(s) + multiset{x}
    ensures |r| == |s| + 1
    ensures r[0] == x || (|s| > 0 && r[0] == s[0])
    ensures SortedDesc(s, key) ==> SortedDesc(r, key)
  {
    if s == [] then [x]
    else if key(s[0]) >= key(x) then
      var rest := InsertDesc(x, s[1..], key);
      assert s == [s[0]] + s[1..];
      KeepsHeadFirst(x, s, rest, key);
      [s[0]] + rest
    else [x] + s
  }

  /** A head that ranks above the inserted element and the rest of a sorted
      sequence stays in front of any sorted insertion into that rest. */
  lemma KeepsHeadFirst<T>(x: T, s: seq<T>, rest: seq<T>, key: T -> int)
    requires s != [] && key(s[0]) >= key(x)
    requires multiset(rest) == multiset(s[1..]) + multiset{x}
    requires SortedDesc(s[1..], key) ==> SortedDesc(rest, key)
    ensures SortedDesc(s, key) ==> SortedDesc([s[0]] + rest, key)
  {
    if SortedDesc(s, key) {
      forall j | 0 <= j < |rest|
        ensures key(s[0]) >= key(rest[j])
      {
        assert rest[j] in multiset(rest);
        if rest[j] != x {
          assert rest[j] in multiset(s[1..]);
          var k :| 0 <= k < |s[1..]| && s[1..][k] == rest[j];
          assert s[k + 1] == rest[j];
        }
      }
    }
  }

  /** The test "has key `k`". */
  function WithKey<T>(key: T -> int, k: int): T -> bool
  {
    (e: T) => key(e) == k
  }

  /** Inserting into a sorted sequence puts the new element after every
      element with its key. */
  lemma {:induction false} InsertDescAfterEqual<T>(x: T, t: seq<T>, key: T -> int, k: int)
    requires SortedDesc(t, key)
    ensures Filter(InsertDesc(x, t, key), WithKey(key, k)) == Filter(t, WithKey(key, k)) + Filter([x], WithKey(key, k))
    decreases |t|
  {
    var keep := WithKey(key, k);
    if t == [] {
      assert [x][..0] == [];
    } else if key(t[0]) >= key(x) {
      var rest := InsertDesc(x, t[1..], key);
      SortedTail(t, key);
      InsertDescAfterEqual(x, t[1..], key, k);
      HeadStays(t[0], t[1..], rest, Filter([x], keep), keep);
      assert t == [t[0]] + t[1..];
    } else {
      FrontCase(x, t, key, k);
    }
  }

  lemma SortedTail<T>(t: seq<T>, key: T -> int)
    requires t != [] && SortedDesc(t, key)
    ensures SortedDesc(t[1..], key)
  {
    assert forall i :: 0 <= i < |t[1..]| ==> t[1..][i] == t[i + 1];
  }

  lemma HeadStays<T>(y: T, tl: seq<T>, rest: seq<T>, fx: seq<T>, keep: T -> bool)
    requires Filter(rest, keep) == Filter(tl, keep) + fx
    ensures Filter([y] + rest, keep) == Filter([y] + tl, keep) + fx
  {
    FilterAppend([y], rest, keep);
    FilterAppend([y], tl, keep);
    Associative(Filter([y], keep), Filter(tl, keep), fx);
  }

  lemma Associative<T>(a: seq<T>, b: seq<T>, c: seq<T>)
    ensures a + (b + c) == (a + b) + c
  {
  }

  /** An element with a key above every key of a sorted sequence goes in
      front, and no element of the sequence shares its key. */
  lemma FrontCase<T>(x: T, t: seq<T>, key: T -> int, k: int)
    requires t != [] && SortedDesc(t, key) && key(t[0]) < key(x)
    ensures Filter([x] + t, WithKey(key, k)) == Filter(t, WithKey(key, k)) + Filter([x], WithKey(key, k))
  {
    var keep := WithKey(key, k);
    FilterAppend([x], t, keep);
    if key(x) == k {
      assert forall i :: 0 <= i < |t| ==> key(t[i]) <= key(t[0]);
      FilterNone(t, keep);
    } else {
      assert [x][..0] == [];
    }
  }

  lemma FilterNone<T>(s: seq<T>, keep: T -> bool)
    requires forall i :: 0 <= i < |s| ==> !keep(s[i])
    ensures Filter(s, keep) == []
  {
  }

  /** The sort is stable: the elements with any one key come out in the order
      they went in. */
  lemma {:induction false} SortDescStable<T>(s: seq<T>, key: T -> int, k: int)
    ensures Filter(SortDesc(s, key), WithKey(key, k)) == Filter(s, WithKey(key, k))
    decreases |s|
  {
    if s != [] {
      var p := s[..|s| - 1];
      var last := s[|s| - 1];
      var sorted := SortDesc(p, key);
      assert s == p + [last];
      SortDescStable(p, key, k);
      InsertDescAfterEqual(last, sorted, key, k);
      StableStep(s, p, last, sorted, InsertDesc(last, sorted, key), WithKey(key, k));
    }
  }

  lemma StableStep<T>(s: seq<T>, p: seq<T>, last: T, sorted: seq<T>, inserted: seq<T>, keep: T -> bool)
    requires s == p + [last] && Filter(sorted, keep) == Filter(p, keep)
    requires Filter(inserted, keep) == Filter(sorted, keep) + Filter([last], keep)
    ensures Filter(inserted, keep) == Filter(s, keep)
  {
    FilterAppend(p, [last], keep);
  }

  /** `s.sort((a, b) => key(b) - key(a))`: JavaScript's sort is stable, and so
      is this insertion sort, which keeps equal keys in their original order
      (`SortDescStable`). */
  function SortDesc<T>(s: seq<T>, key: T -> int): (r: seq<T>)
    ensures multiset(r) == multiset(s)
    ensures |r| == |s|
    ensures SortedDesc(r, key)
  {
    if s == [] then []
    else
      assert s == s[..|s| - 1] + [s[|s| - 1]];
      InsertDesc(s[|s| - 1], SortDesc(s[..|s| - 1], key), key)
  }

  // ---------------------------------------------------------------- grouping

  /** One `map.set(key, ...)` contribution: a key, an info value kept from the
      first contribution with that key, and an amount to add. */
  datatype Entry<K, L> = Entry(key: K, info: L, amount: int)

  /** One value of the grouping map: how many contributions the key had and
      the sum of their amounts. */
  datatype Group<K, L> = Group(key: K, info: L, count: nat, total: int)

  function EntryKeys<K, L>(entries: seq<Entry<K, L>>): (r: seq<K>)
    ensures |r| == |entries|
    ensures forall i :: 0 <= i < |entries| ==> r[i] == entries[i].key
  {
    if entries == [] then [] else EntryKeys(entries[..|entries| - 1]) + [entries[|entries| - 1].key]
  }

  function TallyKeys<K, L>(rows: seq<Group<K, L>>): (r: seq<K>)
    ensures |r| == |rows|
    ensures forall i :: 0 <= i < |rows| ==> r[i] == rows[i].key
  {
    if rows == [] then [] else [rows[0].key] + TallyKeys(rows[1..])
  }

  /** How many contributions carry key `k`. */
  function CountKey<K(==), L>(entries: seq<Entry<K, L>>, k: K): nat
  {
    if entries == [] then 0
    else CountKey(entries[..|entries| - 1], k) + (if entries[|entries| - 1].key == k then 1 else 0)
  }

  /** The sum of the amounts of the contributions that carry key `k`. */
  function SumKey<K(==), L>(entries: seq<Entry<K, L>>, k: K): int
  {
    if entries == [] then 0
    else SumKey(entries[..|entries| - 1], k) + (if entries[|entries| - 1].key == k then entries[|entries| - 1].amount else 0)
  }

  /** The info value of the first contribution that carries key `k`. */
  function FirstInfo<K(==), L>(entries: seq<Entry<K, L>>, k: K): L
    requires k in EntryKeys(entries)
  {
    var p := entries[..|entries| - 1];
    if k in EntryKeys(p) then FirstInfo(p, k) else entries[|entries| - 1].info
  }

  lemma {:induction false} AbsentKey<K, L>(entries: seq<Entry<K, L>>, k: K)
    requires k !in EntryKeys(entries)
    ensures CountKey(entries, k) == 0 && SumKey(entries, k) == 0
    decreases |entries|
  {
    if entries != [] {
      var p := entries[..|entries| - 1];
      assert EntryKeys(entries) == EntryKeys(p) + [entries[|entries| - 1].key];
      AbsentKey(p, k);
    }
  }

  function Bumped<K, L>(g: Group<K, L>, e: Entry<K, L>): Group<K, L>
  {
    g.(count := g.count + 1, total := g.total + e.amount)
  }

  /** Adds one contribution: the row with its key is updated in place, or a new
      row is appended when the key is new. */
  function Bump<K(==), L>(rows: seq<Group<K, L>>, e: Entry<K, L>): (r: seq<Group<K, L>>)
    requires NoDup(TallyKeys(rows))
    ensures |r| == if e.key in TallyKeys(rows) then |rows| else |rows| + 1
    ensures forall i :: 0 <= i < |rows| ==> r[i] == if rows[i].key == e.key then Bumped(rows[i], e) else rows[i]
    ensures e.key !in TallyKeys(rows) ==> r[|rows|] == Group(e.key, e.info, 1, e.amount)
  {
    if rows == [] then [Group(e.key, e.info, 1, e.amount)]
    else
      DistinctHead(rows);
      if rows[0].key == e.key then
        [Bumped(rows[0], e)] + rows[1..]
      else
        var t := Bump(rows[1..], e);
        BumpBehind(rows, e, rows[1..], t);
        [rows[0]] + t
  }

  /** In rows with distinct keys, the first key occurs nowhere else, and the
      other rows have distinct keys too. */
  lemma DistinctHead<K, L>(rows: seq<Group<K, L>>)
    requires rows != [] && NoDup(TallyKeys(rows))
    ensures TallyKeys(rows) == [rows[0].key] + TallyKeys(rows[1..])
    ensures NoDup(TallyKeys(rows[1..]))
    ensures forall i :: 1 <= i < |rows| ==> rows[i].key != rows[0].key
  {
    var ks := TallyKeys(rows);
    var tk := TallyKeys(rows[1..]);
    assert ks == [rows[0].key] + tk;
    forall i | 1 <= i < |rows|
      ensures rows[i].key != rows[0].key
    {
      assert ks[0] != ks[i];
    }
    forall i, j | 0 <= i < j < |tk|
      ensures tk[i] != tk[j]
    {
      assert tk[i] == ks[i + 1] && tk[j] == ks[j + 1];
    }
  }

  /** A first row with another key stays in front of the bumped rest. */
  lemma BumpBehind<K, L>(rows: seq<Group<K, L>>, e: Entry<K, L>, tl: seq<Group<K, L>>, t: seq<Group<K, L>>)
    requires rows != [] && rows[0].key != e.key && tl == rows[1..]
    requires TallyKeys(rows) == [rows[0].key] + TallyKeys(tl)
    requires |t| == if e.key in TallyKeys(tl) then |tl| else |tl| + 1
    requires forall i :: 0 <= i < |tl| ==> t[i] == if tl[i].key == e.key then Bumped(tl[i], e) else tl[i]
    requires e.key !in TallyKeys(tl) ==> t[|tl|] == Group(e.key, e.info, 1, e.amount)
    ensures var r := [rows[0]] + t;
      && |r| == (if e.key in TallyKeys(rows) then |rows| else |rows| + 1)
      && (forall i :: 0 <= i < |rows| ==> r[i] == if rows[i].key == e.key then Bumped(rows[i], e) else rows[i])
      && (e.key !in TallyKeys(rows) ==> r[|rows|] == Group(e.key, e.info, 1, e.amount))
  {
    var r := [rows[0]] + t;
    forall i | 1 <= i < |rows|
      ensures r[i] == if rows[i].key == e.key then Bumped(rows[i], e) else rows[i]
    {
      assert r[i] == t[i - 1] && tl[i - 1] == rows[i];
    }
  }

  lemma BumpKeys<K, L>(rows: seq<Group<K, L>>, e: Entry<K, L>)
    requires NoDup(TallyKeys(rows))
    ensures TallyKeys(Bump(rows, e)) == if e.key in TallyKeys(rows) then TallyKeys(rows) else TallyKeys(rows) + [e.key]
  {
    var r := Bump(rows, e);
    var ks := TallyKeys(rows);
    forall i | 0 <= i < |rows|
      ensures TallyKeys(r)[i] == ks[i]
    {
      assert r[i].key == rows[i].key;
    }
    if e.key in ks {
      assert |r| == |rows|;
      assert TallyKeys(r) == ks;
    } else {
      assert |r| == |rows| + 1;
      assert TallyKeys(r)[|rows|] == e.key;
      assert TallyKeys(r) == ks + [e.key];
    }
  }

  /** The grouping a `forEach` over `entries` builds in a `Map`, as a sequence
      of rows in the map's insertion order: one row per distinct key, in the
      order in which the keys were first seen. */
  function TallyOf<K(==), L>(entries: seq<Entry<K, L>>): (r: seq<Group<K, L>>)
    ensures TallyKeys(r) == Dedup(EntryKeys(entries))
  {
    if entries == [] then []
    else
      var n := |entries|;
      var p := entries[..n - 1];
      var e := entries[n - 1];
      var rows := TallyOf(p);
      BumpKeys(rows, e);
      assert EntryKeys(entries) == EntryKeys(p) + [e.key];
      Bump(rows, e)
  }

  /** A grouping row is right for `entries` when it counts exactly the
      contributions with its key, sums exactly their amounts, and keeps the
      info of the first of them. */
  ghost predicate RowCorrect<K, L>(g: Group<K, L>, entries: seq<Entry<K, L>>)
  {
    && g.key in EntryKeys(entries)
    && g.count == CountKey(entries, g.key)
    && g.total == SumKey(entries, g.key)
    && g.info == FirstInfo(entries, g.key)
  }

  lemma RowStep<K, L>(entries: seq<Entry<K, L>>, rows: seq<Group<K, L>>, i: nat)
    requires entries != []
    requires rows == TallyOf(entries[..|entries| - 1])
    requires forall j :: 0 <= j < |rows| ==> RowCorrect(rows[j], entries[..|entries| - 1])
    requires i < |Bump(rows, entries[|entries| - 1])|
    ensures RowCorrect(Bump(rows, entries[|entries| - 1])[i], entries)
  {
    var p := entries[..|entries| - 1];
    var e := entries[|entries| - 1];
    var r := Bump(rows, e);
    if i < |rows| {
      assert RowCorrect(rows[i], p);
      KeptRowStep(entries, rows[i]);
      assert r[i] == if rows[i].key == e.key then Bumped(rows[i], e) else rows[i];
    } else {
      assert e.key !in TallyKeys(rows);
      assert e.key !in EntryKeys(p);
      NewRowStep(entries);
      assert i == |rows|;
      assert r[i] == Group(e.key, e.info, 1, e.amount);
    }
  }

  /** A right row stays right after one more contribution: bumped when the
      contribution has its key, unchanged otherwise. */
  lemma KeptRowStep<K, L>(entries: seq<Entry<K, L>>, g: Group<K, L>)
    requires entries != [] && RowCorrect(g, entries[..|entries| - 1])
    ensures var e := entries[|entries| - 1];
      RowCorrect(if g.key == e.key then Bumped(g, e) else g, entries)
  {
    var p := entries[..|entries| - 1];
    var e := entries[|entries| - 1];
    assert EntryKeys(entries) == EntryKeys(p) + [e.key];
    assert entries[..|entries| - 1] == p;
  }

  /** The first contribution with a new key makes a right row of its own. */
  lemma NewRowStep<K, L>(entries: seq<Entry<K, L>>)
    requires entries != [] && entries[|entries| - 1].key !in EntryKeys(entries[..|entries| - 1])
    ensures var e := entries[|entries| - 1];
      RowCorrect(Group(e.key, e.info, 1, e.amount), entries)
  {
    var p := entries[..|entries| - 1];
    var e := entries[|entries| - 1];
    assert EntryKeys(entries) == EntryKeys(p) + [e.key];
    AbsentKey(p, e.key);
  }

  /** Every row of the grouping is right for its contributions. */
  lemma {:induction false} TallyCorrect<K, L>(entries: seq<Entry<K, L>>)
    ensures forall i :: 0 <= i < |TallyOf(entries)| ==> RowCorrect(TallyOf(entries)[i], entries)
    decreases |entries|
  {
    if entries != [] {
      var p := entries[..|entries| - 1];
      var rows := TallyOf(p);
      TallyCorrect(p);
      forall i | 0 <= i < |TallyOf(entries)|
        ensures RowCorrect(TallyOf(entries)[i], entries)
      {
        RowStep(entries, rows, i);
      }
    }
  }

  /** The `forEach` loop that fills the grouping map, one contribution at a time. */
  method Tally<K(==), L>(entries: seq<Entry<K, L>>) returns (rows: seq<Group<K, L>>)
    ensures rows == TallyOf(entries)
  {
    rows := [];
    for i := 0 to |entries|
      invariant rows == TallyOf(entries[..i])
    {
      TallyOfStep(entries, i);
      rows := Bump(rows, entries[i]);
    }
    assert entries[..|entries|] == entries;
  }

  /** One more contribution bumps the grouping of the ones before it. */
  lemma TallyOfStep<K, L>(entries: seq<Entry<K, L>>, i: nat)
    requires i < |entries|
    ensures NoDup(TallyKeys(TallyOf(entries[..i])))
    ensures TallyOf(entries[..i + 1]) == Bump(TallyOf(entries[..i]), entries[i])
  {
    assert entries[..i + 1][..i] == entries[..i];
  }
}

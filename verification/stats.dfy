/** The ranking tables of the statistics screens: a grouping map filled by a
    `forEach`, its values sorted by one field, descending, and cut to the
    first `n`. */
module Stats {
  import opened Wrappers
  import opened Seqs

  /** `count > 0 ? total / count : 0`, the average the screens show. */
  function Average(total: int, count: nat): (avg: real)
    ensures count == 0 ==> avg == 0.0
    ensures count > 0 ==> avg * (count as real) == total as real
  {
    if count > 0 then total as real / count as real else 0.0
  }

  function GroupTotal<K, L>(g: Group<K, L>): int
  {
    g.total
  }

  function GroupCount<K, L>(g: Group<K, L>): int
  {
    g.count
  }

  /** `Array.from(map.values()).sort((a, b) => rank(b) - rank(a)).slice(0, n)`. */
  function Ranked<K(==), L>(entries: seq<Entry<K, L>>, rank: Group<K, L> -> int, n: nat): seq<Group<K, L>>
  {
    Take(SortDesc(TallyOf(entries), rank), n)
  }

  /** The loop that fills the map, then the sort and the cut. */
  method Rank<K(==), L>(entries: seq<Entry<K, L>>, rank: Group<K, L> -> int, n: nat) returns (rows: seq<Group<K, L>>)
    ensures rows == Ranked(entries, rank, n)
  {
    var all := Tally(entries);
    rows := Take(SortDesc(all, rank), n);
  }

  /** Two right rows with the same key are the same row. */
  lemma RowDetermined<K, L>(g: Group<K, L>, h: Group<K, L>, entries: seq<Entry<K, L>>)
    requires RowCorrect(g, entries) && RowCorrect(h, entries) && g.key == h.key
    ensures g == h
  {
  }

  /** A sequence of groups with distinct keys holds each group at most once. */
  lemma {:induction false} OnceEach<K, L>(t: seq<Group<K, L>>, g: Group<K, L>)
    requires NoDup(TallyKeys(t))
    ensures multiset(t)[g] <= 1
    decreases |t|
  {
    if t != [] {
      var rest := t[1..];
      assert t == [t[0]] + rest;
      assert TallyKeys(t) == [t[0].key] + TallyKeys(rest);
      assert NoDup(TallyKeys(rest)) by {
        forall i, j | 0 <= i < j < |rest|
          ensures TallyKeys(rest)[i] != TallyKeys(rest)[j]
        {
          assert TallyKeys(t)[i + 1] != TallyKeys(t)[j + 1];
        }
      }
      OnceEach(rest, g);
      if t[0] == g {
        forall i | 0 <= i < |rest|
          ensures rest[i] != g
        {
          assert TallyKeys(t)[0] != TallyKeys(t)[i + 1];
        }
        assert g !in rest;
      }
    }
  }

  /** An element found at two positions is counted at least twice. */
  lemma TwiceCounted<T>(s: seq<T>, i: nat, j: nat)
    requires i < j < |s| && s[i] == s[j]
    ensures multiset(s)[s[i]] >= 2
  {
    assert s == s[..j] + [s[j]] + s[j + 1..];
    assert s[..j][i] == s[i];
    assert s[i] in multiset(s[..j]);
  }

  /** The rows of the sorted grouping are right and have distinct keys. */
  lemma SortedRowsDistinct<K, L>(entries: seq<Entry<K, L>>, rank: Group<K, L> -> int)
    ensures var s := SortDesc(TallyOf(entries), rank);
      && (forall i :: 0 <= i < |s| ==> RowCorrect(s[i], entries))
      && NoDup(TallyKeys(s))
  {
    var t := TallyOf(entries);
    var s := SortDesc(t, rank);
    TallyCorrect(entries);
    forall i | 0 <= i < |s|
      ensures RowCorrect(s[i], entries)
    {
      assert s[i] in multiset(s);
    }
    forall i, j | 0 <= i < j < |s|
      ensures TallyKeys(s)[i] != TallyKeys(s)[j]
    {
      if s[i].key == s[j].key {
        RowDetermined(s[i], s[j], entries);
        TwiceCounted(s, i, j);
        OnceEach(t, s[i]);
        assert false;
      }
    }
  }

  /** A prefix of a sorted sequence of right rows with distinct keys is one too. */
  lemma PrefixKeeps<K, L>(s: seq<Group<K, L>>, n: nat, entries: seq<Entry<K, L>>, rank: Group<K, L> -> int)
    requires SortedDesc(s, rank) && NoDup(TallyKeys(s))
    requires forall i :: 0 <= i < |s| ==> RowCorrect(s[i], entries)
    ensures var r := Take(s, n);
      SortedDesc(r, rank) && NoDup(TallyKeys(r)) && forall i :: 0 <= i < |r| ==> RowCorrect(r[i], entries)
  {
    var r := Take(s, n);
    assert forall i :: 0 <= i < |r| ==> r[i] == s[i];
    assert forall i :: 0 <= i < |r| ==> TallyKeys(r)[i] == TallyKeys(s)[i];
  }

  /** The ranking table: at most `n` rows, as many as there are distinct keys
      up to that bound; sorted by `rank`, descending; one row per key; and each
      row counts, sums and describes exactly its key's contributions. */
  lemma RankedCorrect<K, L>(entries: seq<Entry<K, L>>, rank: Group<K, L> -> int, n: nat)
    ensures var r := Ranked(entries, rank, n);
      var keys := Dedup(EntryKeys(entries));
      && |r| == (if |keys| < n then |keys| else n)
      && SortedDesc(r, rank)
      && NoDup(TallyKeys(r))
      && (forall i :: 0 <= i < |r| ==> RowCorrect(r[i], entries))
  {
    var t := TallyOf(entries);
    assert |TallyKeys(t)| == |t|;
    SortedRowsDistinct(entries, rank);
    PrefixKeeps(SortDesc(t, rank), n, entries, rank);
  }

  /** What a cut of a sorted sequence leaves out ranks no higher than what it
      keeps. */
  lemma CutBeatsRest<T>(s: seq<T>, n: nat, rank: T -> int, x: T)
    requires SortedDesc(s, rank) && x in multiset(s) && x !in Take(s, n)
    ensures forall i :: 0 <= i < |Take(s, n)| ==> rank(Take(s, n)[i]) >= rank(x)
  {
    var r := Take(s, n);
    var j :| 0 <= j < |s| && s[j] == x;
    assert forall i :: 0 <= i < |r| ==> r[i] == s[i];
  }

  /** Every grouping row the cut leaves out ranks no higher than any row kept. */
  lemma RankedBeatsRest<K, L>(entries: seq<Entry<K, L>>, rank: Group<K, L> -> int, n: nat)
    ensures var r := Ranked(entries, rank, n);
      forall g :: g in TallyOf(entries) && g !in r ==> forall i :: 0 <= i < |r| ==> rank(r[i]) >= rank(g)
  {
    var t := TallyOf(entries);
    var s := SortDesc(t, rank);
    forall g | g in t && g !in Take(s, n)
      ensures forall i :: 0 <= i < |Take(s, n)| ==> rank(Take(s, n)[i]) >= rank(g)
    {
      assert g in multiset(s);
      CutBeatsRest(s, n, rank, g);
    }
  }

  /** When the cut does not bite, every key that had a contribution has a row. */
  lemma RankedComplete<K, L>(entries: seq<Entry<K, L>>, rank: Group<K, L> -> int, n: nat)
    requires |Dedup(EntryKeys(entries))| <= n
    ensures forall i :: 0 <= i < |entries| ==> entries[i].key in TallyKeys(Ranked(entries, rank, n))
  {
    var t := TallyOf(entries);
    var r := Ranked(entries, rank, n);
    assert |TallyKeys(t)| == |t|;
    assert r == SortDesc(t, rank);
    forall i | 0 <= i < |entries|
      ensures entries[i].key in TallyKeys(r)
    {
      assert EntryKeys(entries)[i] == entries[i].key;
      var k := entries[i].key;
      assert k in TallyKeys(t);
      var j :| 0 <= j < |t| && TallyKeys(t)[j] == k;
      assert t[j] in multiset(r);
      var m :| 0 <= m < |r| && r[m] == t[j];
      assert TallyKeys(r)[m] == k;
    }
  }

  /** Counting and summing a key over two runs of contributions adds up. */
  lemma {:induction false} KeyAppend<K, L>(a: seq<Entry<K, L>>, b: seq<Entry<K, L>>, k: K)
    ensures CountKey(a + b, k) == CountKey(a, k) + CountKey(b, k)
    ensures SumKey(a + b, k) == SumKey(a, k) + SumKey(b, k)
    decreases |b|
  {
    if b == [] {
      assert a + b == a;
    } else {
      var b' := b[..|b| - 1];
      assert (a + b)[..|a + b| - 1] == a + b';
      KeyAppend(a, b', k);
    }
  }

  /** The first row with key `k`, as `map.get(k)` finds it. */
  function Lookup<K(==), L>(rows: seq<Group<K, L>>, k: K): (r: Option<Group<K, L>>)
    ensures r.Some? <==> k in TallyKeys(rows)
    ensures r.Some? ==> r.value in rows && r.value.key == k
  {
    if rows == [] then None
    else if rows[0].key == k then Some(rows[0])
    else
      assert TallyKeys(rows) == [rows[0].key] + TallyKeys(rows[1..]);
      Lookup(rows[1..], k)
  }

  /** Looking a key up in the grouping gives its count and sum, or nothing
      exactly when the key had no contribution. */
  lemma LookupTally<K, L>(entries: seq<Entry<K, L>>, k: K)
    ensures var g := Lookup(TallyOf(entries), k);
      && (g.Some? <==> CountKey(entries, k) > 0)
      && (g.Some? ==> g.value.count == CountKey(entries, k) && g.value.total == SumKey(entries, k))
      && (g.None? ==> SumKey(entries, k) == 0)
  {
    var t := TallyOf(entries);
    var g := Lookup(t, k);
    TallyCorrect(entries);
    if g.Some? {
      var j :| 0 <= j < |t| && t[j] == g.value;
      assert RowCorrect(t[j], entries);
      PresentKey(entries, k);
    } else {
      assert k !in EntryKeys(entries);
      AbsentKey(entries, k);
    }
  }

  /** A key with a contribution is counted. */
  lemma {:induction false} PresentKey<K, L>(entries: seq<Entry<K, L>>, k: K)
    requires k in EntryKeys(entries)
    ensures CountKey(entries, k) > 0
    decreases |entries|
  {
    var p := entries[..|entries| - 1];
    assert EntryKeys(entries) == EntryKeys(p) + [entries[|entries| - 1].key];
    if entries[|entries| - 1].key != k {
      PresentKey(p, k);
    }
  }

  /** The info value a row keeps is the info of one of its key's contributions. */
  lemma {:induction false} FirstInfoFrom<K, L>(entries: seq<Entry<K, L>>, k: K)
    requires k in EntryKeys(entries)
    ensures exists i :: 0 <= i < |entries| && entries[i].key == k && entries[i].info == FirstInfo(entries, k)
    decreases |entries|
  {
    var p := entries[..|entries| - 1];
    assert EntryKeys(entries) == EntryKeys(p) + [entries[|entries| - 1].key];
    if k in EntryKeys(p) {
      FirstInfoFrom(p, k);
      var i :| 0 <= i < |p| && p[i].key == k && p[i].info == FirstInfo(p, k);
      assert entries[i] == p[i];
    } else {
      assert entries[|entries| - 1].key == k;
    }
  }
}

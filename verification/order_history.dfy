/** The order-history screen: its summary figures (orders, revenue, the three
    most ordered drinks and toppings) and the searchable, category-filtered
    list, newest first. */
module OrderHistory {
  import opened Types
  import opened Seqs
  import opened Text
  import opened Stats

  const TOP_NAMES: nat := 3
  const ALL_CATEGORIES: string := "all"

  // ---------------------------------------------------------------- getTopN

  /** What the counting `reduce` visits: one contribution of 1 per name. */
  function NameEntries(items: seq<string>): (r: seq<Entry<string, ()>>)
    ensures |r| == |items| && forall i :: 0 <= i < |r| ==> r[i] == Entry(items[i], (), 1)
  {
    if items == [] then [] else NameEntries(items[..|items| - 1]) + [Entry(items[|items| - 1], (), 1)]
  }

  /** The count kept for a name is the number of times it occurs. */
  lemma {:induction false} NameEntriesCount(items: seq<string>, x: string)
    ensures CountKey(NameEntries(items), x) == multiset(items)[x]
    ensures EntryKeys(NameEntries(items)) == items
    decreases |items|
  {
    assert EntryKeys(NameEntries(items)) == items;
    if items != [] {
      NameEntriesCount(items[..|items| - 1], x);
      NameCountStep(items, x);
    }
  }

  /** The last name adds one to its own count and to its multiplicity. */
  lemma NameCountStep(items: seq<string>, x: string)
    requires items != []
    ensures var p, d := items[..|items| - 1], if items[|items| - 1] == x then 1 else 0;
      && CountKey(NameEntries(items), x) == CountKey(NameEntries(p), x) + d
      && multiset(items)[x] == multiset(p)[x] + d
  {
    var p := items[..|items| - 1];
    var e := NameEntries(items);
    assert e[..|e| - 1] == NameEntries(p);
    assert items == p + [items[|items| - 1]];
  }

  /** `getTopN`: `[]` for no names; otherwise the names ordered by how often
      they occur, most frequent first, cut to `n`. */
  function TopN(items: seq<string>, n: nat): seq<string>
  {
    if items == [] then [] else TallyKeys(Ranked(NameEntries(items), GroupCount, n))
  }

  /** The counting loop, the sort and the cut. */
  method GetTopN(items: seq<string>, n: nat) returns (names: seq<string>)
    ensures names == TopN(items, n)
  {
    if |items| == 0 {
      return [];
    }
    var rows := Rank(NameEntries(items), GroupCount, n);
    names := TallyKeys(rows);
  }

  /** Each row of the name grouping counts its name's occurrences. */
  lemma NameRowsCount(items: seq<string>, g: Group<string, ()>)
    requires RowCorrect(g, NameEntries(items))
    ensures g.key in items && g.count == multiset(items)[g.key]
  {
    NameEntriesCount(items, g.key);
  }

  /** `getTopN` returns at most `n` distinct names, as many as there are
      distinct names up to that bound, each occurring in the input, ordered by
      occurrence count, descending. */
  lemma TopNCorrect(items: seq<string>, n: nat)
    ensures var r := TopN(items, n);
      && |r| == (if |Dedup(items)| < n then |Dedup(items)| else n)
      && NoDup(r)
      && (forall i :: 0 <= i < |r| ==> r[i] in items)
      && (forall i, j :: 0 <= i < j < |r| ==> multiset(items)[r[i]] >= multiset(items)[r[j]])
  {
    var e := NameEntries(items);
    var rows := Ranked(e, GroupCount, n);
    NameEntriesCount(items, []);
    if items != [] {
      assert TopN(items, n) == TallyKeys(rows);
      RankedCorrect(e, GroupCount, n);
      RankedRowsCount(items, n);
    }
  }

  /** Each row of the ranking counts its name's occurrences. */
  lemma RankedRowsCount(items: seq<string>, n: nat)
    ensures var rows := Ranked(NameEntries(items), GroupCount, n);
      forall i :: 0 <= i < |rows| ==> rows[i].key in items && rows[i].count == multiset(items)[rows[i].key]
  {
    var e := NameEntries(items);
    var rows := Ranked(e, GroupCount, n);
    RankedCorrect(e, GroupCount, n);
    forall i | 0 <= i < |rows|
      ensures rows[i].key in items && rows[i].count == multiset(items)[rows[i].key]
    {
      NameRowsCount(items, rows[i]);
    }
  }

  /** No name `getTopN` leaves out occurs more often than a name it returns. */
  lemma TopNBeatsRest(items: seq<string>, n: nat, x: string)
    requires x in items && x !in TopN(items, n)
    ensures forall i :: 0 <= i < |TopN(items, n)| ==> multiset(items)[TopN(items, n)[i]] >= multiset(items)[x]
  {
    var e := NameEntries(items);
    var rows := Ranked(e, GroupCount, n);
    var r := TallyKeys(rows);
    assert TopN(items, n) == r;
    var g := RowOf(items, x);
    assert g !in rows;
    RankedRowsCount(items, n);
    RankedBeatsRest(e, GroupCount, n);
    forall i | 0 <= i < |r|
      ensures multiset(items)[r[i]] >= multiset(items)[x]
    {
      assert GroupCount(rows[i]) >= GroupCount(g);
    }
  }

  /** The grouping row of a name that occurs. */
  lemma RowOf(items: seq<string>, x: string) returns (g: Group<string, ()>)
    requires x in items
    ensures g in TallyOf(NameEntries(items)) && g.key == x && g.count == multiset(items)[x]
  {
    var e := NameEntries(items);
    var t := TallyOf(e);
    NameEntriesCount(items, x);
    assert x in TallyKeys(t);
    var j :| 0 <= j < |t| && TallyKeys(t)[j] == x;
    g := t[j];
    TallyCorrect(e);
    NameRowsCount(items, g);
  }

  // ---------------------------------------------------------------- stats

  /** `history.map(h => h.product?.name).filter(Boolean)`: the non-empty
      names of the ordered products. */
  function DrinkNames(history: seq<HistoricOrder>): (r: seq<string>)
    ensures forall x :: x in r <==> exists i :: 0 <= i < |history| && history[i].product.Some? && history[i].product.value.name == x && x != []
  {
    if history == [] then []
    else
      var h := history[|history| - 1];
      var p := history[..|history| - 1];
      assert forall i :: 0 <= i < |p| ==> p[i] == history[i];
      DrinkNames(p) + (if h.product.Some? && h.product.value.name != [] then [h.product.value.name] else [])
  }

  function ToppingNamesOf(toppings: seq<Topping>): (r: seq<string>)
    ensures |r| == |toppings| && forall i :: 0 <= i < |r| ==> r[i] == toppings[i].name
  {
    if toppings == [] then [] else ToppingNamesOf(toppings[..|toppings| - 1]) + [toppings[|toppings| - 1].name]
  }

  /** `history.flatMap(h => h.toppings.map(t => t.name))`. */
  function ToppingNames(history: seq<HistoricOrder>): (r: seq<string>)
    ensures forall x :: x in r <==> exists i, k :: 0 <= i < |history| && 0 <= k < |history[i].toppings| && history[i].toppings[k].name == x
  {
    if history == [] then []
    else
      var p := history[..|history| - 1];
      var last := history[|history| - 1].toppings;
      assert forall i :: 0 <= i < |p| ==> p[i] == history[i];
      ToppingNames(p) + ToppingNamesOf(last)
  }

  datatype HistoryStats = HistoryStats(totalOrders: nat, totalRevenue: int, topDrinks: seq<string>, topToppings: seq<string>)

  function OrderTotal(h: HistoricOrder): int
  {
    h.totalPrice
  }

  /** `stats`: the order count, the revenue, and the three most ordered
      drink and topping names. */
  method Summary(history: seq<HistoricOrder>) returns (s: HistoryStats)
    ensures s.totalOrders == |history| && s.totalRevenue == Sum(history, OrderTotal)
    ensures s.topDrinks == TopN(DrinkNames(history), TOP_NAMES)
    ensures s.topToppings == TopN(ToppingNames(history), TOP_NAMES)
  {
    var drinks := GetTopN(DrinkNames(history), TOP_NAMES);
    var toppings := GetTopN(ToppingNames(history), TOP_NAMES);
    s := HistoryStats(|history|, Sum(history, OrderTotal), drinks, toppings);
  }

  // ---------------------------------------------------------------- filteredHistory

  /** An order is listed when its customer's lower-cased name contains the
      trimmed, lower-cased search, and the category is "all" or the one of
      the order's product. */
  predicate Matches(order: HistoricOrder, search: string, category: string)
  {
    && Contains(ToLower(order.customerName), ToLower(Trim(search)))
    && (category == ALL_CATEGORIES || (order.product.Some? && order.product.value.category == category))
  }

  /** The `filter` step. */
  function Matching(history: seq<HistoricOrder>, search: string, category: string): (r: seq<HistoricOrder>)
    ensures |r| <= |history|
    ensures forall i :: 0 <= i < |r| ==> r[i] in history && Matches(r[i], search, category)
    ensures forall i :: 0 <= i < |history| && Matches(history[i], search, category) ==> history[i] in r
  {
    Filter(history, (o: HistoricOrder) => Matches(o, search, category))
  }

  /** An empty search over all categories lists the whole history. */
  lemma EmptySearchKeepsAll(history: seq<HistoricOrder>, search: string)
    requires IsBlank(search)
    ensures Matching(history, search, ALL_CATEGORIES) == history
  {
    TrimEmptyIffBlank(search);
    forall i | 0 <= i < |history|
      ensures Matches(history[i], search, ALL_CATEGORIES)
    {
      assert StartsWith(ToLower(history[i].customerName), []);
    }
    FilterAll(history, (o: HistoricOrder) => Matches(o, search, ALL_CATEGORIES));
  }

  /** `filteredHistory`: the matching orders, newest first, with orders of
      the same date kept in their history order as the stable `sort` does.
      `stamp` is the order date read as milliseconds
      (`new Date(date).getTime()`). */
  method FilteredHistory(history: seq<HistoricOrder>, search: string, category: string, stamp: HistoricOrder -> int)
    returns (r: seq<HistoricOrder>)
    ensures multiset(r) == multiset(Matching(history, search, category))
    ensures SortedDesc(r, stamp)
    ensures forall i :: 0 <= i < |r| ==> r[i] in history && Matches(r[i], search, category)
    ensures forall i :: 0 <= i < |history| && Matches(history[i], search, category) ==> history[i] in r
    ensures forall k :: Filter(r, WithKey(stamp, k)) == Filter(Matching(history, search, category), WithKey(stamp, k))
  {
    var kept := Matching(history, search, category);
    r := SortDesc(kept, stamp);
    forall k
      ensures Filter(r, WithKey(stamp, k)) == Filter(kept, WithKey(stamp, k))
    {
      SortDescStable(kept, stamp, k);
    }
    forall i | 0 <= i < |r|
      ensures r[i] in kept
    {
      assert r[i] in multiset(kept);
    }
    forall x | x in kept
      ensures x in r
    {
      assert x in multiset(r);
    }
  }
}

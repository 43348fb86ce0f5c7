/** The merged-orders report: merged orders grouped by day, and the figures
    for all of them or for one day (revenue, orders, items, distinct
    customers, the five most ordered products, revenue per staff member,
    average order value). */
module Report {
  import opened Wrappers
  import opened Types
  import opened Seqs
  import opened Stats

  const ALL_DATES: string := "all"
  const TOP_PRODUCTS: nat := 5

  // ---------------------------------------------------------------- ordersByDate

  /** The merged orders of day `d`, in list order. `dayOf` is the local date
      text of `mergedAt` (`toLocaleDateString('vi-VN', ...)`). */
  function OnDay(orders: seq<MergedOrder>, dayOf: string -> string, d: string): (r: seq<MergedOrder>)
    ensures forall x :: x in r <==> x in orders && dayOf(x.mergedAt) == d
  {
    if orders == [] then []
    else
      var o := orders[|orders| - 1];
      var p := orders[..|orders| - 1];
      assert orders == p + [o];
      OnDay(p, dayOf, d) + (if dayOf(o.mergedAt) == d then [o] else [])
  }

  /** The buckets the `forEach` has built after visiting `orders`. */
  function ByDate(orders: seq<MergedOrder>, dayOf: string -> string): map<string, seq<MergedOrder>>
  {
    if orders == [] then map[]
    else
      var o := orders[|orders| - 1];
      var groups := ByDate(orders[..|orders| - 1], dayOf);
      var d := dayOf(o.mergedAt);
      groups[d := (if d in groups then groups[d] else []) + [o]]
  }

  /** The grouping: a day has a bucket exactly when some order falls on it,
      and its bucket holds that day's orders in list order. So every order
      lands in the bucket of its own day and in no other. */
  lemma {:induction false} ByDateBuckets(orders: seq<MergedOrder>, dayOf: string -> string)
    ensures forall d :: d in ByDate(orders, dayOf) <==> OnDay(orders, dayOf, d) != []
    ensures forall d :: d in ByDate(orders, dayOf) ==> ByDate(orders, dayOf)[d] == OnDay(orders, dayOf, d)
    decreases |orders|
  {
    if orders != [] {
      ByDateBuckets(orders[..|orders| - 1], dayOf);
    }
  }

  /** `ordersByDate`: the grouping loop. */
  method OrdersByDate(orders: seq<MergedOrder>, dayOf: string -> string) returns (groups: map<string, seq<MergedOrder>>)
    ensures groups == ByDate(orders, dayOf)
  {
    groups := map[];
    for i := 0 to |orders|
      invariant groups == ByDate(orders[..i], dayOf)
    {
      assert orders[..i + 1][..i] == orders[..i];
      var d := dayOf(orders[i].mergedAt);
      if d !in groups {
        groups := groups[d := []];
      }
      groups := groups[d := groups[d] + [orders[i]]];
    }
    assert orders[..|orders|] == orders;
  }

  /** `filteredOrders`: every merged order for "all", else the bucket of the
      chosen day, or none. */
  function Selected(orders: seq<MergedOrder>, dayOf: string -> string, selected: string): seq<MergedOrder>
  {
    if selected == ALL_DATES then orders
    else
      var groups := ByDate(orders, dayOf);
      if selected in groups then groups[selected] else []
  }

  /** A chosen day selects exactly that day's orders, whether or not it has
      a bucket. */
  lemma SelectedIsOnDay(orders: seq<MergedOrder>, dayOf: string -> string, selected: string)
    requires selected != ALL_DATES
    ensures Selected(orders, dayOf, selected) == OnDay(orders, dayOf, selected)
  {
    ByDateBuckets(orders, dayOf);
  }

  /** The `filteredOrders` step, over the grouping the loop built. */
  method Choose(orders: seq<MergedOrder>, dayOf: string -> string, selected: string) returns (chosen: seq<MergedOrder>)
    ensures chosen == Selected(orders, dayOf, selected)
  {
    if selected == ALL_DATES {
      return orders;
    }
    var groups := OrdersByDate(orders, dayOf);
    chosen := if selected in groups then groups[selected] else [];
  }

  // ---------------------------------------------------------------- figures

  function MergedTotal(o: MergedOrder): int
  {
    o.totalPrice
  }

  function MergedItems(o: MergedOrder): int
  {
    o.totalItems
  }

  /** `filteredOrders.flatMap(o => o.customerNames)`. */
  function CustomerNames(orders: seq<MergedOrder>): (r: seq<string>)
    ensures forall x :: x in r <==> exists i :: 0 <= i < |orders| && x in orders[i].customerNames
  {
    if orders == [] then []
    else
      var p := orders[..|orders| - 1];
      assert forall i :: 0 <= i < |p| ==> p[i] == orders[i];
      CustomerNames(p) + orders[|orders| - 1].customerNames
  }

  /** A sequence without repeats has as many elements as the set of them. */
  lemma {:induction false} NoDupCard<T>(s: seq<T>)
    requires NoDup(s)
    ensures |s| == |set x | x in s|
    decreases |s|
  {
    if s != [] {
      var p := s[..|s| - 1];
      var last := s[|s| - 1];
      assert NoDup(p) by {
        forall i, j | 0 <= i < j < |p|
          ensures p[i] != p[j]
        {
          assert s[i] != s[j];
        }
      }
      NoDupCard(p);
      assert last !in p;
      assert s == p + [last];
      assert (set x | x in s) == (set x | x in p) + {last};
    }
  }

  /** `new Set(names).size`: the number of distinct customer names. */
  function UniqueCustomers(orders: seq<MergedOrder>): (n: nat)
    ensures n == |set x | x in CustomerNames(orders)|
  {
    var names := CustomerNames(orders);
    NoDupCard(Dedup(names));
    assert (set x | x in Dedup(names)) == (set x | x in names);
    |Dedup(names)|
  }

  // ---------------------------------------------------------------- top products

  function ItemEntriesOf(items: seq<OrderItem>): (r: seq<Entry<string, ()>>)
    ensures |r| == |items|
    ensures forall i :: 0 <= i < |r| ==> r[i] == Entry(items[i].product.name, (), items[i].price)
  {
    if items == [] then []
    else ItemEntriesOf(items[..|items| - 1]) + [Entry(items[|items| - 1].product.name, (), items[|items| - 1].price)]
  }

  /** What the nested product loop visits: every item of every order, keyed
      by product name, carrying the item's price. */
  function ItemEntries(orders: seq<MergedOrder>): seq<Entry<string, ()>>
  {
    if orders == [] then []
    else ItemEntries(orders[..|orders| - 1]) + ItemEntriesOf(orders[|orders| - 1].items)
  }

  /** How many items named `name`, and their price sum, in a list of items. */
  function NamedItems(items: seq<OrderItem>, name: string): (nat, int)
  {
    if items == [] then (0, 0)
    else
      var p := NamedItems(items[..|items| - 1], name);
      var it := items[|items| - 1];
      if it.product.name == name then (p.0 + 1, p.1 + it.price) else p
  }

  /** How many items of product `name` the orders hold, and their price sum. */
  function ProductSales(orders: seq<MergedOrder>, name: string): (nat, int)
  {
    if orders == [] then (0, 0)
    else
      var p := ProductSales(orders[..|orders| - 1], name);
      var q := NamedItems(orders[|orders| - 1].items, name);
      (p.0 + q.0, p.1 + q.1)
  }

  lemma {:induction false} ItemEntriesOfCount(items: seq<OrderItem>, name: string)
    ensures CountKey(ItemEntriesOf(items), name) == NamedItems(items, name).0
    ensures SumKey(ItemEntriesOf(items), name) == NamedItems(items, name).1
    decreases |items|
  {
    if items != [] {
      var p := items[..|items| - 1];
      ItemEntriesOfCount(p, name);
      var e := ItemEntriesOf(items);
      assert e[..|e| - 1] == ItemEntriesOf(p);
    }
  }

  lemma {:induction false} ItemEntriesCount(orders: seq<MergedOrder>, name: string)
    ensures CountKey(ItemEntries(orders), name) == ProductSales(orders, name).0
    ensures SumKey(ItemEntries(orders), name) == ProductSales(orders, name).1
    decreases |orders|
  {
    if orders != [] {
      var p := orders[..|orders| - 1];
      var last := orders[|orders| - 1].items;
      ItemEntriesCount(p, name);
      ItemEntriesOfCount(last, name);
      KeyAppend(ItemEntries(p), ItemEntriesOf(last), name);
    }
  }

  /** The top-products table: at most five rows, one per product name, most
      sold first; each row counts its product's items and sums their prices;
      no product left out sold more items than a product shown. */
  lemma TopProductsCorrect(orders: seq<MergedOrder>)
    ensures var r := Ranked(ItemEntries(orders), GroupCount, TOP_PRODUCTS);
      && |r| <= TOP_PRODUCTS
      && SortedDesc(r, GroupCount)
      && NoDup(TallyKeys(r))
      && (forall i :: 0 <= i < |r| ==> (r[i].count, r[i].total) == ProductSales(orders, r[i].key) && r[i].count > 0)
    ensures var r := Ranked(ItemEntries(orders), GroupCount, TOP_PRODUCTS);
      forall g :: g in TallyOf(ItemEntries(orders)) && g !in r ==>
        forall i :: 0 <= i < |r| ==> r[i].count >= ProductSales(orders, g.key).0
  {
    var e := ItemEntries(orders);
    var r := Ranked(e, GroupCount, TOP_PRODUCTS);
    RankedCorrect(e, GroupCount, TOP_PRODUCTS);
    RankedBeatsRest(e, GroupCount, TOP_PRODUCTS);
    forall i | 0 <= i < |r|
      ensures (r[i].count, r[i].total) == ProductSales(orders, r[i].key) && r[i].count > 0
    {
      assert RowCorrect(r[i], e);
      ItemEntriesCount(orders, r[i].key);
      PresentKey(e, r[i].key);
    }
    forall g | g in TallyOf(e) && g !in r
      ensures forall i :: 0 <= i < |r| ==> r[i].count >= ProductSales(orders, g.key).0
    {
      TallyCorrect(e);
      var j :| 0 <= j < |TallyOf(e)| && TallyOf(e)[j] == g;
      assert RowCorrect(g, e);
      ItemEntriesCount(orders, g.key);
      assert forall i :: 0 <= i < |r| ==> GroupCount(r[i]) >= GroupCount(g);
    }
  }

  // ---------------------------------------------------------------- staff revenue

  /** What the staff loop visits: one contribution per order, keyed by the
      staff member who merged it, carrying the order's total. */
  function StaffEntries(orders: seq<MergedOrder>): (r: seq<Entry<string, ()>>)
    ensures |r| == |orders| && forall i :: 0 <= i < |r| ==> r[i] == Entry(orders[i].mergedBy, (), orders[i].totalPrice)
  {
    if orders == [] then []
    else StaffEntries(orders[..|orders| - 1]) + [Entry(orders[|orders| - 1].mergedBy, (), orders[|orders| - 1].totalPrice)]
  }

  /** The total of the orders `staff` merged. */
  function StaffTotal(orders: seq<MergedOrder>, staff: string): int
  {
    if orders == [] then 0
    else StaffTotal(orders[..|orders| - 1], staff) + (if orders[|orders| - 1].mergedBy == staff then orders[|orders| - 1].totalPrice else 0)
  }

  lemma {:induction false} StaffEntriesSum(orders: seq<MergedOrder>, staff: string)
    ensures SumKey(StaffEntries(orders), staff) == StaffTotal(orders, staff)
    ensures EntryKeys(StaffEntries(orders)) == MergedBy(orders)
    decreases |orders|
  {
    if orders != [] {
      var p := orders[..|orders| - 1];
      StaffEntriesSum(p, staff);
      var e := StaffEntries(orders);
      assert e[..|e| - 1] == StaffEntries(p);
    }
  }

  /** Who merged each order, in list order. */
  function MergedBy(orders: seq<MergedOrder>): (r: seq<string>)
    ensures |r| == |orders| && forall i :: 0 <= i < |r| ==> r[i] == orders[i].mergedBy
  {
    if orders == [] then [] else MergedBy(orders[..|orders| - 1]) + [orders[|orders| - 1].mergedBy]
  }

  /** `staffRevenue`: one row per distinct staff member, in the order they
      first appear, holding the total of the orders they merged. */
  lemma StaffRevenueCorrect(orders: seq<MergedOrder>)
    ensures var r := TallyOf(StaffEntries(orders));
      && TallyKeys(r) == Dedup(MergedBy(orders))
      && forall i :: 0 <= i < |r| ==> r[i].total == StaffTotal(orders, r[i].key)
  {
    var e := StaffEntries(orders);
    var r := TallyOf(e);
    StaffEntriesSum(orders, []);
    TallyCorrect(e);
    forall i | 0 <= i < |r|
      ensures r[i].total == StaffTotal(orders, r[i].key)
    {
      assert RowCorrect(r[i], e);
      StaffEntriesSum(orders, r[i].key);
    }
  }

  // ---------------------------------------------------------------- stats

  datatype ReportStats = ReportStats(
    totalRevenue: int,
    totalOrders: nat,
    totalItems: int,
    uniqueCustomers: nat,
    topProducts: seq<Group<string, ()>>,
    staffRevenue: seq<Group<string, ()>>,
    averageOrderValue: real)

  /** `stats` for the chosen day (or "all"). */
  method Figures(orders: seq<MergedOrder>, dayOf: string -> string, selected: string) returns (s: ReportStats)
    ensures var chosen := Selected(orders, dayOf, selected);
      && s.totalRevenue == Sum(chosen, MergedTotal)
      && s.totalOrders == |chosen|
      && s.totalItems == Sum(chosen, MergedItems)
      && s.uniqueCustomers == UniqueCustomers(chosen)
      && s.topProducts == Ranked(ItemEntries(chosen), GroupCount, TOP_PRODUCTS)
      && s.staffRevenue == TallyOf(StaffEntries(chosen))
    ensures s.averageOrderValue == Average(s.totalRevenue, s.totalOrders)
  {
    var chosen := Choose(orders, dayOf, selected);
    var revenue := Sum(chosen, MergedTotal);
    var top := Rank(ItemEntries(chosen), GroupCount, TOP_PRODUCTS);
    var staff := Tally(StaffEntries(chosen));
    var average := Average(revenue, |chosen|);
    s := ReportStats(revenue, |chosen|, Sum(chosen, MergedItems), UniqueCustomers(chosen), top, staff, average);
  }
}

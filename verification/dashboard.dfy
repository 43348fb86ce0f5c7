/** The admin dashboard's figures over the local order history: revenue,
    order count and average, and the product, category and topping tables. */
module Dashboard {
  import opened Wrappers
  import opened Types
  import opened Seqs
  import opened Stats

  /** The product and topping tables show at most this many rows. */
  const TOP_ROWS: nat := 10

  function OrderTotal(h: HistoricOrder): int
  {
    h.totalPrice
  }

  /** `totalRevenue`: the sum of the orders' totals. */
  function TotalRevenue(history: seq<HistoricOrder>): int
  {
    Sum(history, OrderTotal)
  }

  /** Revenue adds up over two runs of history, and is never negative when no
      order total is. */
  lemma TotalRevenueAdds(a: seq<HistoricOrder>, b: seq<HistoricOrder>)
    ensures TotalRevenue(a + b) == TotalRevenue(a) + TotalRevenue(b)
    ensures (forall i :: 0 <= i < |a| ==> a[i].totalPrice >= 0) ==> TotalRevenue(a) >= 0
  {
    SumAppend(a, b, OrderTotal);
    if forall i :: 0 <= i < |a| ==> a[i].totalPrice >= 0 {
      SumNonNegative(a, OrderTotal);
    }
  }

  /** `avgOrderValue`: 0 for an empty history, else revenue over order count. */
  function AverageOrderValue(history: seq<HistoricOrder>): (avg: real)
    ensures |history| == 0 ==> avg == 0.0
    ensures |history| > 0 ==> avg * (|history| as real) == TotalRevenue(history) as real
  {
    Average(TotalRevenue(history), |history|)
  }

  // ---------------------------------------------------------------- products

  /** What the product loop visits: one contribution per order with a product,
      keyed by product id, carrying the product and the order's total. */
  function ProductEntries(history: seq<HistoricOrder>): (r: seq<Entry<int, Product>>)
    ensures forall i :: 0 <= i < |r| ==> r[i].key == r[i].info.id
  {
    if history == [] then []
    else
      var h := history[|history| - 1];
      ProductEntries(history[..|history| - 1])
        + (if h.product.Some? then [Entry(h.product.value.id, h.product.value, h.totalPrice)] else [])
  }

  predicate HasProduct(h: HistoricOrder, id: int)
  {
    h.product.Some? && h.product.value.id == id
  }

  /** How many orders are for product `id`. */
  function OrdersFor(history: seq<HistoricOrder>, id: int): nat
  {
    if history == [] then 0
    else OrdersFor(history[..|history| - 1], id) + (if HasProduct(history[|history| - 1], id) then 1 else 0)
  }

  /** The total of the orders for product `id`. */
  function RevenueFor(history: seq<HistoricOrder>, id: int): int
  {
    if history == [] then 0
    else RevenueFor(history[..|history| - 1], id) + (if HasProduct(history[|history| - 1], id) then history[|history| - 1].totalPrice else 0)
  }

  lemma {:induction false} ProductEntriesCount(history: seq<HistoricOrder>, id: int)
    ensures CountKey(ProductEntries(history), id) == OrdersFor(history, id)
    ensures SumKey(ProductEntries(history), id) == RevenueFor(history, id)
    decreases |history|
  {
    if history != [] {
      var p := history[..|history| - 1];
      var h := history[|history| - 1];
      ProductEntriesCount(p, id);
      KeyAppend(ProductEntries(p), if h.product.Some? then [Entry(h.product.value.id, h.product.value, h.totalPrice)] else [], id);
    }
  }

  /** `productStats`: the grouping loop, then the ten best by revenue. */
  method ProductStats(history: seq<HistoricOrder>) returns (rows: seq<Group<int, Product>>)
    ensures rows == Ranked(ProductEntries(history), GroupTotal, TOP_ROWS)
  {
    rows := Rank(ProductEntries(history), GroupTotal, TOP_ROWS);
  }

  /** The product table: at most ten rows, one per product id, best revenue
      first; each row counts the orders for its product and sums their
      totals, and shows a product with that id taken from one of them; orders
      without a product count nowhere. */
  lemma ProductStatsCorrect(history: seq<HistoricOrder>)
    ensures var r := Ranked(ProductEntries(history), GroupTotal, TOP_ROWS);
      && |r| <= TOP_ROWS
      && SortedDesc(r, GroupTotal)
      && NoDup(TallyKeys(r))
      && forall i :: 0 <= i < |r| ==>
        && r[i].count == OrdersFor(history, r[i].key) > 0
        && r[i].total == RevenueFor(history, r[i].key)
        && r[i].info.id == r[i].key
  {
    var e := ProductEntries(history);
    var r := Ranked(e, GroupTotal, TOP_ROWS);
    RankedCorrect(e, GroupTotal, TOP_ROWS);
    forall i | 0 <= i < |r|
      ensures r[i].count == OrdersFor(history, r[i].key) > 0
      ensures r[i].total == RevenueFor(history, r[i].key)
      ensures r[i].info.id == r[i].key
    {
      assert RowCorrect(r[i], e);
      ProductEntriesCount(history, r[i].key);
      PresentKey(e, r[i].key);
      FirstInfoFrom(e, r[i].key);
    }
  }

  // ---------------------------------------------------------------- categories

  /** What the category loop visits: one contribution per order with a
      product, keyed by the product's category, carrying the order's total. */
  function CategoryEntries(history: seq<HistoricOrder>): seq<Entry<string, ()>>
  {
    if history == [] then []
    else
      var h := history[|history| - 1];
      CategoryEntries(history[..|history| - 1])
        + (if h.product.Some? then [Entry(h.product.value.category, (), h.totalPrice)] else [])
  }

  predicate InCategory(h: HistoricOrder, categoryId: string)
  {
    h.product.Some? && h.product.value.category == categoryId
  }

  /** How many orders are for a product of category `categoryId`. */
  function OrdersIn(history: seq<HistoricOrder>, categoryId: string): nat
  {
    if history == [] then 0
    else OrdersIn(history[..|history| - 1], categoryId) + (if InCategory(history[|history| - 1], categoryId) then 1 else 0)
  }

  /** The total of the orders for a product of category `categoryId`. */
  function RevenueIn(history: seq<HistoricOrder>, categoryId: string): int
  {
    if history == [] then 0
    else RevenueIn(history[..|history| - 1], categoryId) + (if InCategory(history[|history| - 1], categoryId) then history[|history| - 1].totalPrice else 0)
  }

  lemma {:induction false} CategoryEntriesCount(history: seq<HistoricOrder>, categoryId: string)
    ensures CountKey(CategoryEntries(history), categoryId) == OrdersIn(history, categoryId)
    ensures SumKey(CategoryEntries(history), categoryId) == RevenueIn(history, categoryId)
    decreases |history|
  {
    if history != [] {
      var p := history[..|history| - 1];
      var h := history[|history| - 1];
      CategoryEntriesCount(p, categoryId);
      KeyAppend(CategoryEntries(p), if h.product.Some? then [Entry(h.product.value.category, (), h.totalPrice)] else [], categoryId);
    }
  }

  /** A row of the category table (the percentage is not modelled). */
  datatype CategoryStat = CategoryStat(category: Category, totalOrders: nat, totalRevenue: int)

  /** `stats.get(category.id) || { orders: 0, revenue: 0 }`. */
  function StatOf(c: Category, rows: seq<Group<string, ()>>): CategoryStat
  {
    match Lookup(rows, c.id)
    case Some(g) => CategoryStat(c, g.count, g.total)
    case None => CategoryStat(c, 0, 0)
  }

  predicate Active(s: CategoryStat)
  {
    s.totalOrders > 0
  }

  function StatRevenue(s: CategoryStat): int
  {
    s.totalRevenue
  }

  /** The listed categories' rows, in list order. */
  function StatsInOrder(categories: seq<Category>, rows: seq<Group<string, ()>>): (r: seq<CategoryStat>)
    ensures |r| == |categories| && forall i :: 0 <= i < |r| ==> r[i] == StatOf(categories[i], rows)
  {
    seq(|categories|, i requires 0 <= i < |categories| => StatOf(categories[i], rows))
  }

  /** `categoryStats`: the listed categories with at least one order, best
      revenue first. */
  method CategoryStats(history: seq<HistoricOrder>, categories: seq<Category>) returns (r: seq<CategoryStat>)
    ensures r == SortDesc(Filter(StatsInOrder(categories, TallyOf(CategoryEntries(history))), Active), StatRevenue)
  {
    var rows := Tally(CategoryEntries(history));
    r := SortDesc(Filter(StatsInOrder(categories, rows), Active), StatRevenue);
  }

  /** A category row carries its category's order count and revenue. */
  predicate RowFor(s: CategoryStat, history: seq<HistoricOrder>)
  {
    s.totalOrders == OrdersIn(history, s.category.id) && s.totalRevenue == RevenueIn(history, s.category.id)
  }

  /** The category table: best revenue first; every row is a listed category
      with at least one order, and carries that category's order count and
      revenue; every listed category with an order has a row. */
  lemma CategoryStatsCorrect(history: seq<HistoricOrder>, categories: seq<Category>)
    ensures var r := SortDesc(Filter(StatsInOrder(categories, TallyOf(CategoryEntries(history))), Active), StatRevenue);
      && SortedDesc(r, StatRevenue)
      && (forall i :: 0 <= i < |r| ==>
        && r[i].category in categories
        && r[i].totalOrders == OrdersIn(history, r[i].category.id) > 0
        && r[i].totalRevenue == RevenueIn(history, r[i].category.id))
      && (forall j :: 0 <= j < |categories| && OrdersIn(history, categories[j].id) > 0 ==>
          exists i :: 0 <= i < |r| && r[i].category == categories[j])
  {
    var all := StatsInOrder(categories, TallyOf(CategoryEntries(history)));
    StatsInOrderRight(history, categories);
    KeptRows(all, categories, history);
  }

  /** Filtering and sorting rows that are right for the listed categories. */
  lemma KeptRows(all: seq<CategoryStat>, categories: seq<Category>, history: seq<HistoricOrder>)
    requires |all| == |categories|
    requires forall i :: 0 <= i < |all| ==> all[i].category == categories[i] && RowFor(all[i], history)
    ensures var r := SortDesc(Filter(all, Active), StatRevenue);
      && (forall i :: 0 <= i < |r| ==>
        && r[i].category in categories
        && r[i].totalOrders == OrdersIn(history, r[i].category.id) > 0
        && r[i].totalRevenue == RevenueIn(history, r[i].category.id))
      && (forall j :: 0 <= j < |categories| && OrdersIn(history, categories[j].id) > 0 ==>
          exists i :: 0 <= i < |r| && r[i].category == categories[j])
  {
    var kept := Filter(all, Active);
    var r := SortDesc(kept, StatRevenue);
    forall i | 0 <= i < |r|
      ensures r[i].category in categories && RowFor(r[i], history) && Active(r[i])
    {
      assert r[i] in multiset(kept);
      var j :| 0 <= j < |all| && all[j] == r[i];
    }
    forall j | 0 <= j < |categories| && OrdersIn(history, categories[j].id) > 0
      ensures exists i :: 0 <= i < |r| && r[i].category == categories[j]
    {
      assert RowFor(all[j], history);
      assert all[j] in kept;
      assert all[j] in multiset(r);
    }
  }

  /** Before filtering, each listed category's row carries its order count
      and revenue. */
  lemma StatsInOrderRight(history: seq<HistoricOrder>, categories: seq<Category>)
    ensures var all := StatsInOrder(categories, TallyOf(CategoryEntries(history)));
      forall i :: 0 <= i < |all| ==> all[i].category == categories[i] && RowFor(all[i], history)
  {
    var e := CategoryEntries(history);
    var all := StatsInOrder(categories, TallyOf(e));
    forall i | 0 <= i < |all|
      ensures all[i].category == categories[i] && RowFor(all[i], history)
    {
      LookupTally(e, categories[i].id);
      CategoryEntriesCount(history, categories[i].id);
    }
  }

  // ---------------------------------------------------------------- toppings

  function ToppingEntriesOf(toppings: seq<Topping>): (r: seq<Entry<string, ()>>)
    ensures |r| == |toppings|
    ensures forall i :: 0 <= i < |r| ==> r[i] == Entry(toppings[i].name, (), toppings[i].price)
  {
    if toppings == [] then []
    else ToppingEntriesOf(toppings[..|toppings| - 1]) + [Entry(toppings[|toppings| - 1].name, (), toppings[|toppings| - 1].price)]
  }

  /** What the nested topping loop visits: every topping of every order, keyed
      by topping name, carrying the topping's price. */
  function ToppingEntries(history: seq<HistoricOrder>): seq<Entry<string, ()>>
  {
    if history == [] then []
    else ToppingEntries(history[..|history| - 1]) + ToppingEntriesOf(history[|history| - 1].toppings)
  }

  /** How many toppings named `name` the orders of `history` carry. */
  function ToppingUses(history: seq<HistoricOrder>, name: string): nat
  {
    if history == [] then 0
    else ToppingUses(history[..|history| - 1], name) + NamedIn(history[|history| - 1].toppings, name)
  }

  function NamedIn(toppings: seq<Topping>, name: string): nat
  {
    if toppings == [] then 0
    else NamedIn(toppings[..|toppings| - 1], name) + (if toppings[|toppings| - 1].name == name then 1 else 0)
  }

  lemma {:induction false} ToppingEntriesOfCount(toppings: seq<Topping>, name: string)
    ensures CountKey(ToppingEntriesOf(toppings), name) == NamedIn(toppings, name)
    decreases |toppings|
  {
    if toppings != [] {
      var p := toppings[..|toppings| - 1];
      ToppingEntriesOfCount(p, name);
      var e := ToppingEntriesOf(toppings);
      assert e[..|e| - 1] == ToppingEntriesOf(p);
    }
  }

  lemma {:induction false} ToppingEntriesCount(history: seq<HistoricOrder>, name: string)
    ensures CountKey(ToppingEntries(history), name) == ToppingUses(history, name)
    decreases |history|
  {
    if history != [] {
      var p := history[..|history| - 1];
      var last := history[|history| - 1].toppings;
      ToppingEntriesCount(p, name);
      ToppingEntriesOfCount(last, name);
      KeyAppend(ToppingEntries(p), ToppingEntriesOf(last), name);
    }
  }

  /** `toppingStats`: the nested grouping loop, then the ten most used. */
  method ToppingStats(history: seq<HistoricOrder>) returns (rows: seq<Group<string, ()>>)
    ensures rows == Ranked(ToppingEntries(history), GroupCount, TOP_ROWS)
  {
    rows := Rank(ToppingEntries(history), GroupCount, TOP_ROWS);
  }

  /** The topping table: at most ten rows, one per topping name, most used
      first; each row counts the uses of its name across all orders; and no
      name left out is used more often than a name shown. */
  lemma ToppingStatsCorrect(history: seq<HistoricOrder>)
    ensures var r := Ranked(ToppingEntries(history), GroupCount, TOP_ROWS);
      && |r| <= TOP_ROWS
      && SortedDesc(r, GroupCount)
      && NoDup(TallyKeys(r))
      && (forall i :: 0 <= i < |r| ==> r[i].count == ToppingUses(history, r[i].key) > 0)
    ensures var r := Ranked(ToppingEntries(history), GroupCount, TOP_ROWS);
      forall g :: g in TallyOf(ToppingEntries(history)) && g !in r ==>
        forall i :: 0 <= i < |r| ==> r[i].count >= ToppingUses(history, g.key)
  {
    var e := ToppingEntries(history);
    var r := Ranked(e, GroupCount, TOP_ROWS);
    RankedCorrect(e, GroupCount, TOP_ROWS);
    RankedBeatsRest(e, GroupCount, TOP_ROWS);
    TallyCorrect(e);
    forall i | 0 <= i < |r|
      ensures r[i].count == ToppingUses(history, r[i].key) > 0
    {
      assert RowCorrect(r[i], e);
      ToppingEntriesCount(history, r[i].key);
      PresentKey(e, r[i].key);
    }
    forall g | g in TallyOf(e) && g !in r
      ensures forall i :: 0 <= i < |r| ==> r[i].count >= ToppingUses(history, g.key)
    {
      var j :| 0 <= j < |TallyOf(e)| && TallyOf(e)[j] == g;
      assert RowCorrect(g, e);
      ToppingEntriesCount(history, g.key);
      assert forall i :: 0 <= i < |r| ==> GroupCount(r[i]) >= GroupCount(g);
    }
  }
}

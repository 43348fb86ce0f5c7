/** The web client's order service: pending orders customers submit, merged
    orders staff build from them, and the guest history rebuilt from merged
    orders. Every call keeps a copy in browser storage; when the remote store
    is not configured or fails, that copy is the only record. */
module OrderService {
  import opened Wrappers
  import opened Types
  import opened Rows
  import opened Seqs
  import opened Text
  import opened ById

  const NO_ORDERS_TO_MERGE: string := "No orders to merge"
  const UNKNOWN_CUSTOMER: string := "Unknown"

  /** What the remote store answered to a read: not configured, an error, or
      the rows (`data`, which may be `null`). */
  datatype Fetch<R> = NotConfigured | FetchFailed | Fetched(rows: Option<seq<R>>)

  /** What the remote store answered to an insert: not configured, an error, or
      success with the row it echoed back (which may be `null`). */
  datatype Insert<R> = NoStore | InsertFailed | Inserted(echo: Option<R>)

  // ---------------------------------------------------------------- merge aggregation

  /** `pendingOrders.filter(o => orderIds.includes(o.id))`. */
  function Matched(pending: seq<PendingOrder>, orderIds: seq<string>): (r: seq<PendingOrder>)
    ensures |r| <= |pending|
    ensures forall i :: 0 <= i < |r| ==> r[i].id in orderIds && r[i] in pending
    ensures forall i :: 0 <= i < |pending| && pending[i].id in orderIds ==> pending[i] in r
  {
    if pending == [] then []
    else
      var last := pending[|pending| - 1];
      Matched(pending[..|pending| - 1], orderIds) + (if last.id in orderIds then [last] else [])
  }

  /** `Matched` is the filter it is written as: it keeps the requested orders
      in their order. */
  lemma {:induction false} MatchedIsFilter(pending: seq<PendingOrder>, orderIds: seq<string>)
    ensures Matched(pending, orderIds) == Filter(pending, (o: PendingOrder) => o.id in orderIds)
    decreases |pending|
  {
    if pending != [] {
      MatchedIsFilter(pending[..|pending| - 1], orderIds);
    }
  }

  /** `orders.flatMap(o => o.items)`. */
  function AllItems(orders: seq<PendingOrder>): seq<OrderItem>
  {
    if orders == [] then [] else AllItems(orders[..|orders| - 1]) + orders[|orders| - 1].items
  }

  /** `orders.map(o => o.customerName)`. */
  function NamesOf(orders: seq<PendingOrder>): seq<string>
  {
    seq(|orders|, i requires 0 <= i < |orders| => orders[i].customerName)
  }

  /** The merged order `createMergedOrder` builds before it talks to the store,
      or its "No orders to merge" error. */
  function BuildMergedOrder(orderIds: seq<string>, mergedBy: string, pending: seq<PendingOrder>, id: string, mergedAt: string)
    : (r: Result<MergedOrder, string>)
    ensures r.Err? <==> forall i :: 0 <= i < |pending| ==> pending[i].id !in orderIds
    ensures r.Err? ==> r.error == NO_ORDERS_TO_MERGE
    ensures r.Ok? ==> r.value.pendingOrderIds == orderIds && r.value.totalItems == |r.value.items|
    ensures r.Ok? ==> r.value.id == id && r.value.mergedBy == mergedBy && r.value.mergedAt == mergedAt
  {
    var matched := Matched(pending, orderIds);
    if matched == [] then
      assert forall i :: 0 <= i < |pending| ==> pending[i].id !in orderIds;
      Err(NO_ORDERS_TO_MERGE)
    else
      var items := AllItems(matched);
      Ok(MergedOrder(id, orderIds, Dedup(NamesOf(matched)), |items|, Sum(matched, TotalOrZero), mergedBy, mergedAt, items))
  }

  /** The items of the requested orders, read off the pending list in one pass. */
  function RequestedItems(pending: seq<PendingOrder>, orderIds: seq<string>): seq<OrderItem>
  {
    if pending == [] then []
    else
      var last := pending[|pending| - 1];
      RequestedItems(pending[..|pending| - 1], orderIds) + (if last.id in orderIds then last.items else [])
  }

  /** The totals of the requested orders, a missing total counting as zero, read
      off the pending list in one pass. */
  function RequestedTotal(pending: seq<PendingOrder>, orderIds: seq<string>): int
  {
    if pending == [] then 0
    else
      var last := pending[|pending| - 1];
      RequestedTotal(pending[..|pending| - 1], orderIds) + (if last.id in orderIds then TotalOrZero(last) else 0)
  }

  lemma {:induction false} AllItemsOfMatched(pending: seq<PendingOrder>, orderIds: seq<string>)
    ensures AllItems(Matched(pending, orderIds)) == RequestedItems(pending, orderIds)
    decreases |pending|
  {
    if pending != [] {
      var p := pending[..|pending| - 1];
      var last := pending[|pending| - 1];
      AllItemsOfMatched(p, orderIds);
      var m := Matched(p, orderIds);
      if last.id in orderIds {
        assert (m + [last])[..|m + [last]| - 1] == m;
      } else {
        assert m + [] == m;
      }
    }
  }

  lemma {:induction false} SumOfMatched(pending: seq<PendingOrder>, orderIds: seq<string>)
    ensures Sum(Matched(pending, orderIds), TotalOrZero) == RequestedTotal(pending, orderIds)
    decreases |pending|
  {
    if pending != [] {
      var p := pending[..|pending| - 1];
      var last := pending[|pending| - 1];
      SumOfMatched(p, orderIds);
      var m := Matched(p, orderIds);
      if last.id in orderIds {
        assert (m + [last])[..|m + [last]| - 1] == m;
      } else {
        assert m + [] == m;
      }
    }
  }

  /** The merged items are the requested orders' items, concatenated in
      pending-list order, and `totalItems` is their number. */
  lemma MergedItems(orderIds: seq<string>, mergedBy: string, pending: seq<PendingOrder>, id: string, mergedAt: string)
    requires BuildMergedOrder(orderIds, mergedBy, pending, id, mergedAt).Ok?
    ensures var m := BuildMergedOrder(orderIds, mergedBy, pending, id, mergedAt).value;
            m.items == RequestedItems(pending, orderIds) && m.totalItems == |RequestedItems(pending, orderIds)|
  {
    AllItemsOfMatched(pending, orderIds);
  }

  /** The merged total is the sum of the requested orders' totals, a missing
      total counting as zero. */
  lemma MergedTotal(orderIds: seq<string>, mergedBy: string, pending: seq<PendingOrder>, id: string, mergedAt: string)
    requires BuildMergedOrder(orderIds, mergedBy, pending, id, mergedAt).Ok?
    ensures BuildMergedOrder(orderIds, mergedBy, pending, id, mergedAt).value.totalPrice == RequestedTotal(pending, orderIds)
  {
    SumOfMatched(pending, orderIds);
  }

  /** Every requested order's customer name is among the merged names. */
  lemma {:induction false} MatchedNamesCover(pending: seq<PendingOrder>, orderIds: seq<string>, i: nat)
    requires i < |pending| && pending[i].id in orderIds
    ensures pending[i].customerName in Dedup(NamesOf(Matched(pending, orderIds)))
  {
    var matched := Matched(pending, orderIds);
    var all := NamesOf(matched);
    var j :| 0 <= j < |matched| && matched[j] == pending[i];
    assert all[j] == pending[i].customerName;
  }

  /** Every merged name is the customer name of a requested order. */
  lemma {:induction false} MatchedNamesOnly(pending: seq<PendingOrder>, orderIds: seq<string>, k: nat)
    requires k < |Dedup(NamesOf(Matched(pending, orderIds)))|
    ensures exists i :: 0 <= i < |pending| && pending[i].id in orderIds
                        && pending[i].customerName == Dedup(NamesOf(Matched(pending, orderIds)))[k]
  {
    var matched := Matched(pending, orderIds);
    var all := NamesOf(matched);
    var name := Dedup(all)[k];
    var j :| 0 <= j < |all| && all[j] == name;
    var i :| 0 <= i < |pending| && pending[i] == matched[j];
    assert pending[i].customerName == name;
  }

  /** The merged customer names hold every requested order's name exactly once
      and nothing else. */
  lemma MergedNames(orderIds: seq<string>, mergedBy: string, pending: seq<PendingOrder>, id: string, mergedAt: string)
    requires BuildMergedOrder(orderIds, mergedBy, pending, id, mergedAt).Ok?
    ensures var names := BuildMergedOrder(orderIds, mergedBy, pending, id, mergedAt).value.customerNames;
      && NoDup(names)
      && (forall i :: 0 <= i < |pending| && pending[i].id in orderIds ==> pending[i].customerName in names)
      && (forall k :: 0 <= k < |names| ==>
            exists i :: 0 <= i < |pending| && pending[i].id in orderIds && pending[i].customerName == names[k])
  {
    forall i | 0 <= i < |pending| && pending[i].id in orderIds {
      MatchedNamesCover(pending, orderIds, i);
    }
    forall k | 0 <= k < |Dedup(NamesOf(Matched(pending, orderIds)))| {
      MatchedNamesOnly(pending, orderIds, k);
    }
  }

  /** The merged customer names are listed in the order in which they first
      appear among the requested orders. */
  lemma MergedNamesOrder(orderIds: seq<string>, mergedBy: string, pending: seq<PendingOrder>, id: string, mergedAt: string)
    requires BuildMergedOrder(orderIds, mergedBy, pending, id, mergedAt).Ok?
    ensures var names := BuildMergedOrder(orderIds, mergedBy, pending, id, mergedAt).value.customerNames;
      forall k, l :: 0 <= k < l < |names| ==>
        IndexOf(NamesOf(Matched(pending, orderIds)), names[k]) < IndexOf(NamesOf(Matched(pending, orderIds)), names[l])
  {
    DedupFirstSeen(NamesOf(Matched(pending, orderIds)));
  }

  // ---------------------------------------------------------------- records built locally

  /** The record `createPendingOrder` builds: id `PO-<millis>-<random>`, the
      submitted fields, the creation time and status `pending`. */
  function NewPendingOrder(customerName: string, items: seq<OrderItem>, totalPrice: int, now: nat, suffix: string, createdAt: string)
    : (o: PendingOrder)
    ensures o.status == Pending && StartsWith(o.id, "PO-")
    ensures o.customerName == customerName && o.items == items && o.totalPrice == Some(totalPrice)
  {
    PendingOrder("PO-" + NatToString(now) + "-" + suffix, customerName, items, Some(totalPrice), createdAt, Pending)
  }

  /** The first position of an order with id `id`, or -1 (`findIndex`). */
  function IndexOfId(orders: seq<PendingOrder>, id: string): (i: int)
    ensures -1 <= i < |orders|
    ensures i == -1 <==> forall k :: 0 <= k < |orders| ==> orders[k].id != id
    ensures i >= 0 ==> orders[i].id == id && forall k :: 0 <= k < i ==> orders[k].id != id
  {
    if orders == [] then -1
    else if orders[0].id == id then 0
    else
      var j := IndexOfId(orders[1..], id);
      if j == -1 then -1 else j + 1
  }

  /** The orders left after every id of `ids` has been removed. */
  function WithoutIds(orders: seq<PendingOrder>, ids: seq<string>): (r: seq<PendingOrder>)
    ensures forall k :: 0 <= k < |r| ==> r[k].id !in ids && r[k] in orders
    ensures forall k :: 0 <= k < |orders| && orders[k].id !in ids ==> orders[k] in r
  {
    Filter(orders, (o: PendingOrder) => o.id !in ids)
  }

  /** Removing no ids keeps every order. */
  lemma WithoutNoIds(orders: seq<PendingOrder>)
    ensures WithoutIds(orders, []) == orders
  {
    FilterAll(orders, (o: PendingOrder) => o.id !in []);
  }

  /** Dropping the records with key `k` from a filtered list is filtering by
      both conditions at once. */
  lemma {:induction false} RemoveAfterFilter<T, K>(s: seq<T>, keep: T -> bool, k: K, key: T -> K, both: T -> bool)
    requires forall x :: both(x) == (keep(x) && key(x) != k)
    ensures Remove(Filter(s, keep), k, key) == Filter(s, both)
    decreases |s|
  {
    if s != [] {
      var p := s[..|s| - 1];
      var last := s[|s| - 1];
      RemoveAfterFilter(p, keep, k, key, both);
      RemoveAppend(Filter(p, keep), if keep(last) then [last] else [], k, key);
      assert Remove([last], k, key) == (if key(last) != k then [last] else []) by {
        assert [last][..0] == [];
      }
    }
  }

  /** Removing one more id after a batch is removing the longer batch. */
  lemma WithoutIdsStep(orders: seq<PendingOrder>, ids: seq<string>, id: string)
    ensures Remove(WithoutIds(orders, ids), id, OrderId) == WithoutIds(orders, ids + [id])
  {
    RemoveAfterFilter(orders, (o: PendingOrder) => o.id !in ids, id, OrderId, (o: PendingOrder) => o.id !in ids + [id]);
  }

  /** One entry of the guest history rebuilt from a merged row: item `k` of the
      row, with id `<row id>-item-<k>`, the merge time as date, the first
      customer name (or "Unknown") and the item's `totalPrice`, a field order
      items do not have, so always 0. */
  function HistoryEntry(row: MergedRow, k: nat): HistoricOrder
    requires k < |row.items|
  {
    var item := row.items[k];
    var name := if |row.customer_names| > 0 && row.customer_names[0] != [] then row.customer_names[0] else UNKNOWN_CUSTOMER;
    HistoricOrder(ItemId(row.id + "-item-" + NatToString(k)), row.merged_at, Some(item.product), item.toppings,
                  item.size, item.sugar, item.ice, name, 0, None)
  }

  function RowHistory(row: MergedRow): (h: seq<HistoricOrder>)
    ensures |h| == |row.items|
  {
    seq(|row.items|, k requires 0 <= k < |row.items| => HistoryEntry(row, k))
  }

  function ItemCount(row: MergedRow): int
  {
    |row.items|
  }

  /** `rows.flatMap(row => row.items.map(...))`. */
  function FlattenHistory(rows: seq<MergedRow>): seq<HistoricOrder>
  {
    if rows == [] then [] else FlattenHistory(rows[..|rows| - 1]) + RowHistory(rows[|rows| - 1])
  }

  /** The rebuilt history has one entry per merged item: item `k` of row `j`
      sits after the items of the earlier rows. */
  lemma {:induction false} FlattenHistoryEntry(rows: seq<MergedRow>, j: nat, k: nat)
    requires j < |rows| && k < |rows[j].items|
    ensures |FlattenHistory(rows)| == Sum(rows, ItemCount)
    ensures 0 <= Sum(rows[..j], ItemCount) && Sum(rows[..j], ItemCount) + k < |FlattenHistory(rows)|
    ensures FlattenHistory(rows)[Sum(rows[..j], ItemCount) + k] == HistoryEntry(rows[j], k)
    decreases |rows|
  {
    var n := |rows|;
    var p := rows[..n - 1];
    FlattenSize(p);
    SumNonNegative(rows[..j], ItemCount);
    if j < n - 1 {
      FlattenHistoryEntry(p, j, k);
      assert p[..j] == rows[..j];
      SumNonNegative(rows[n - 1..], ItemCount);
    } else {
      assert rows[..j] == p;
    }
  }

  lemma {:induction false} FlattenSize(rows: seq<MergedRow>)
    ensures |FlattenHistory(rows)| == Sum(rows, ItemCount)
    decreases |rows|
  {
    if rows != [] {
      FlattenSize(rows[..|rows| - 1]);
    }
  }

  /** Every rebuilt history entry has price 0 and no pending order: the
      Dashboard revenue computed from it is therefore always 0. */
  lemma {:induction false} FlattenHistoryPricesZero(rows: seq<MergedRow>)
    ensures forall e :: e in FlattenHistory(rows) ==> e.totalPrice == 0 && e.pendingOrderId.None?
    decreases |rows|
  {
    if rows != [] {
      FlattenHistoryPricesZero(rows[..|rows| - 1]);
    }
  }

  // ---------------------------------------------------------------- the browser-storage copy

  /** The storage keys the order service uses; `None` is a missing key. */
  class OrderCache {
    /** `pendingOrders` */
    var pendingOrders: Option<seq<PendingOrder>>
    /** `mergedOrders` */
    var mergedOrders: Option<seq<MergedOrder>>
    /** `bobaBlissOrderHistory` */
    var guestHistory: Option<seq<HistoricOrder>>
    /** `orderHistoryClearedAt` */
    var historyClearedAt: Option<string>

    constructor ()
      ensures pendingOrders == None && mergedOrders == None && guestHistory == None && historyClearedAt == None
    {
      pendingOrders := None;
      mergedOrders := None;
      guestHistory := None;
      historyClearedAt := None;
    }

    /** `stored ? JSON.parse(stored) : []`. */
    function StoredPending(): seq<PendingOrder>
      reads this
    {
      pendingOrders.GetOr([])
    }

    function StoredMerged(): seq<MergedOrder>
      reads this
    {
      mergedOrders.GetOr([])
    }

    /** `fetchPendingOrders`: the store's rows when it answers, and the cache
        follows them (an empty answer removes the cache and clears the guest
        history); the cached copy otherwise. */
    method FetchPendingOrders(answer: Fetch<PendingRow>, clearedAt: string) returns (orders: seq<PendingOrder>)
      modifies this
      ensures !answer.Fetched? ==> orders == old(StoredPending()) && unchanged(this)
      ensures answer.Fetched? ==> orders == MapRows(answer.rows, PendingFromRow) && mergedOrders == old(mergedOrders)
      ensures answer.Fetched? && orders == [] ==>
        pendingOrders == None && guestHistory == Some([]) && historyClearedAt == Some(clearedAt)
      ensures answer.Fetched? && orders != [] ==>
        pendingOrders == Some(orders) && guestHistory == old(guestHistory) && historyClearedAt == old(historyClearedAt)
    {
      if !answer.Fetched? {
        return StoredPending();
      }
      orders := MapRows(answer.rows, PendingFromRow);
      if orders == [] {
        pendingOrders := None;
        historyClearedAt := Some(clearedAt);
        guestHistory := Some([]);
      } else {
        pendingOrders := Some(orders);
      }
    }

    /** `createPendingOrder`: the new order (or the store's echo of it) goes to
        the front of the cache whatever the store answered. */
    method CreatePendingOrder(customerName: string, items: seq<OrderItem>, totalPrice: int, now: nat, suffix: string,
                              createdAt: string, answer: Insert<PendingRow>)
      returns (created: PendingOrder)
      modifies this`pendingOrders
      ensures var made := NewPendingOrder(customerName, items, totalPrice, now, suffix, createdAt);
        && created == (if answer.Inserted? && answer.echo.Some? then PendingFromRow(answer.echo.value) else made)
        && (answer == Inserted(Some(PendingToRow(made))) ==> created == made)
      ensures pendingOrders == Some([created] + old(StoredPending()))
    {
      var newOrder := NewPendingOrder(customerName, items, totalPrice, now, suffix, createdAt);
      created := newOrder;
      if answer.Inserted? && answer.echo.Some? {
        created := PendingFromRow(answer.echo.value);
      }
      var orders := StoredPending();
      orders := [created] + orders;
      pendingOrders := Some(orders);
    }

    /** `updatePendingOrder`: the first cached order with that id is replaced by
        the updated record, which keeps the id and is `pending` again; an
        unknown id leaves the cache as it was. The remote update does not change
        what happens locally. */
    method UpdatePendingOrder(orderId: string, customerName: string, items: seq<OrderItem>, totalPrice: int, updatedAt: string)
      returns (updated: PendingOrder)
      modifies this`pendingOrders
      ensures updated == PendingOrder(orderId, customerName, items, Some(totalPrice), updatedAt, Pending)
      ensures var i := IndexOfId(old(StoredPending()), orderId);
        pendingOrders == if i == -1 then old(pendingOrders) else Some(old(StoredPending())[i := updated])
    {
      updated := PendingOrder(orderId, customerName, items, Some(totalPrice), updatedAt, Pending);
      var orders := StoredPending();
      var index := FindIndex(orders, (o: PendingOrder) => o.id == orderId);
      if index != -1 {
        orders := orders[index := updated];
        pendingOrders := Some(orders);
      }
    }

    /** `deletePendingOrder`: every cached order with that id is removed. */
    method DeletePendingOrder(orderId: string)
      modifies this`pendingOrders
      ensures pendingOrders == if old(pendingOrders).None? then None else Some(Remove(old(pendingOrders).value, orderId, OrderId))
    {
      if pendingOrders.Some? {
        var orders := pendingOrders.value;
        pendingOrders := Some(Remove(orders, orderId, OrderId));
      }
    }

    /** `fetchMergedOrders`: the store's rows when it answers, and the cache
        follows them (an empty answer removes it); the cached copy otherwise. */
    method FetchMergedOrders(answer: Fetch<MergedRow>) returns (orders: seq<MergedOrder>)
      modifies this`mergedOrders
      ensures !answer.Fetched? ==> orders == old(StoredMerged()) && mergedOrders == old(mergedOrders)
      ensures answer.Fetched? ==> orders == MapRows(answer.rows, MergedFromRow)
      ensures answer.Fetched? ==> mergedOrders == if orders == [] then None else Some(orders)
    {
      if !answer.Fetched? {
        return StoredMerged();
      }
      orders := MapRows(answer.rows, MergedFromRow);
      if orders == [] {
        mergedOrders := None;
      } else {
        mergedOrders := Some(orders);
      }
    }

    /** `createMergedOrder`: with nothing to merge it fails and changes
        nothing; otherwise the merged order (or the store's echo of it) goes to
        the front of the cache and is returned, even when the store refused
        the insert. */
    method CreateMergedOrder(orderIds: seq<string>, mergedBy: string, pending: seq<PendingOrder>, id: string,
                             mergedAt: string, answer: Insert<MergedRow>)
      returns (r: Result<MergedOrder, string>)
      modifies this`mergedOrders
      ensures var built := BuildMergedOrder(orderIds, mergedBy, pending, id, mergedAt);
        && (built.Err? ==> r == built && mergedOrders == old(mergedOrders))
        && (built.Ok? ==> r.Ok? && mergedOrders == Some([r.value] + old(StoredMerged())))
        && (built.Ok? ==> r.value == if answer.Inserted? && answer.echo.Some? then MergedFromRow(answer.echo.value) else built.value)
    {
      r := BuildMergedOrder(orderIds, mergedBy, pending, id, mergedAt);
      if r.Err? {
        return;
      }
      if answer.Inserted? && answer.echo.Some? {
        r := Ok(MergedFromRow(answer.echo.value));
      }
      var orders := StoredMerged();
      orders := [r.value] + orders;
      mergedOrders := Some(orders);
    }

    /** `clearOrderHistory`: records when, and empties the guest history. */
    method ClearOrderHistory(clearedAt: string)
      modifies this`guestHistory, this`historyClearedAt
      ensures guestHistory == Some([]) && historyClearedAt == Some(clearedAt)
    {
      historyClearedAt := Some(clearedAt);
      guestHistory := Some([]);
    }

    /** `fetchOrderHistory`: one entry per item of every merged row when the
        store answers, the stored guest history otherwise. */
    method FetchOrderHistory(answer: Fetch<MergedRow>) returns (history: seq<HistoricOrder>)
      ensures answer.Fetched? ==> history == FlattenHistory(answer.rows.GetOr([]))
      ensures !answer.Fetched? ==> history == guestHistory.GetOr([])
    {
      if answer.Fetched? {
        history := FlattenHistory(answer.rows.GetOr([]));
      } else {
        history := guestHistory.GetOr([]);
      }
    }
  }
}

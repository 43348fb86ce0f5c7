/** The order session the pages share: it prices the items it submits, runs
    the merge as create, then delete every merged pending order, then clear the
    guest history, and counts the orders still pending. The pending orders it
    shows come from the realtime hook; here they are a parameter. */
module OrderSession {
  import opened Wrappers
  import opened Types
  import opened Rows
  import opened Seqs
  import opened OrderService

  /** `items.reduce((sum, item) => sum + item.price, 0)`. */
  function ItemsTotal(items: seq<OrderItem>): int
  {
    Sum(items, ItemPrice)
  }

  /** `addPendingOrder`: the order is submitted with the sum of its item
      prices as total, goes to the front of the stored list, and its id is
      returned. */
  method AddPendingOrder(cache: OrderCache, customerName: string, items: seq<OrderItem>, now: nat, suffix: string,
                         createdAt: string, answer: Insert<PendingRow>)
    returns (id: string)
    modifies cache`pendingOrders
    ensures var made := NewPendingOrder(customerName, items, ItemsTotal(items), now, suffix, createdAt);
      && cache.pendingOrders.Some? && |cache.pendingOrders.value| == |old(cache.StoredPending())| + 1
      && cache.pendingOrders.value[1..] == old(cache.StoredPending())
      && id == cache.pendingOrders.value[0].id
      && (!(answer.Inserted? && answer.echo.Some?) ==> cache.pendingOrders.value[0] == made)
  {
    var created := cache.CreatePendingOrder(customerName, items, ItemsTotal(items), now, suffix, createdAt, answer);
    id := created.id;
  }

  /** `updatePendingOrder`: the order is re-submitted under the same id with
      the sum of its item prices as total. */
  method UpdatePendingOrder(cache: OrderCache, orderId: string, customerName: string, items: seq<OrderItem>, updatedAt: string)
    modifies cache`pendingOrders
    ensures var updated := PendingOrder(orderId, customerName, items, Some(ItemsTotal(items)), updatedAt, Pending);
      var i := IndexOfId(old(cache.StoredPending()), orderId);
      cache.pendingOrders == if i == -1 then old(cache.pendingOrders) else Some(old(cache.StoredPending())[i := updated])
  {
    var _ := cache.UpdatePendingOrder(orderId, customerName, items, ItemsTotal(items), updatedAt);
  }

  /** `mergePendingOrders`: the merged order is built from the pending orders
      on screen first. If that fails nothing is deleted and the error is
      passed on. Otherwise every requested id is deleted from the stored
      pending orders and the guest history is cleared. */
  method MergePendingOrders(cache: OrderCache, orderIds: seq<string>, mergedBy: string, pending: seq<PendingOrder>,
                            id: string, mergedAt: string, answer: Insert<MergedRow>, clearedAt: string)
    returns (r: Result<MergedOrder, string>)
    modifies cache
    ensures var built := BuildMergedOrder(orderIds, mergedBy, pending, id, mergedAt);
      && (built.Err? ==> r == built && cache.pendingOrders == old(cache.pendingOrders)
                         && cache.mergedOrders == old(cache.mergedOrders) && cache.guestHistory == old(cache.guestHistory)
                         && cache.historyClearedAt == old(cache.historyClearedAt))
      && (built.Ok? ==> r.Ok? && cache.mergedOrders == Some([r.value] + old(cache.StoredMerged()))
                        && cache.guestHistory == Some([]) && cache.historyClearedAt == Some(clearedAt))
      && (built.Ok? ==> r.value == if answer.Inserted? && answer.echo.Some? then MergedFromRow(answer.echo.value) else built.value)
    ensures r.Ok? ==> cache.pendingOrders == if old(cache.pendingOrders).None? then None
                                            else Some(WithoutIds(old(cache.pendingOrders).value, orderIds))
  {
    r := cache.CreateMergedOrder(orderIds, mergedBy, pending, id, mergedAt, answer);
    if r.Err? {
      return;
    }
    DeleteAll(cache, orderIds);
    cache.ClearOrderHistory(clearedAt);
  }

  /** `Promise.all(orderIds.map(id => deletePendingOrder(id)))`: each id in
      turn is removed from the stored pending orders. */
  method DeleteAll(cache: OrderCache, orderIds: seq<string>)
    modifies cache`pendingOrders
    ensures cache.pendingOrders == if old(cache.pendingOrders).None? then None
                                   else Some(WithoutIds(old(cache.pendingOrders).value, orderIds))
  {
    var start := cache.pendingOrders;
    if start.Some? {
      WithoutNoIds(start.value);
    }
    for i := 0 to |orderIds|
      invariant cache.pendingOrders == if start.None? then None else Some(WithoutIds(start.value, orderIds[..i]))
    {
      cache.DeletePendingOrder(orderIds[i]);
      if start.Some? {
        WithoutIdsStep(start.value, orderIds[..i], orderIds[i]);
        assert orderIds[..i + 1] == orderIds[..i] + [orderIds[i]];
      }
    }
    assert orderIds[..|orderIds|] == orderIds;
  }

  /** An order counts as pending while its status is `pending`. */
  predicate IsActive(o: PendingOrder)
  {
    o.status == Pending
  }

  /** `pendingOrders.filter(o => o.status === 'pending')`. */
  function ActiveOrders(orders: seq<PendingOrder>): (r: seq<PendingOrder>)
    ensures forall i :: 0 <= i < |r| ==> r[i].status == Pending && r[i] in orders
    ensures forall i :: 0 <= i < |orders| && orders[i].status == Pending ==> orders[i] in r
  {
    Filter(orders, IsActive)
  }

  /** `getPendingOrdersCount`. */
  function PendingCount(orders: seq<PendingOrder>): nat
  {
    |ActiveOrders(orders)|
  }

  /** The count never exceeds the list, and reaches it exactly when every
      order is still pending. */
  lemma {:induction false} PendingCountAll(orders: seq<PendingOrder>)
    ensures PendingCount(orders) <= |orders|
    ensures PendingCount(orders) == |orders| <==> forall i :: 0 <= i < |orders| ==> orders[i].status == Pending
    decreases |orders|
  {
    if orders != [] {
      var p := orders[..|orders| - 1];
      PendingCountAll(p);
      if forall i :: 0 <= i < |orders| ==> orders[i].status == Pending {
        assert forall i :: 0 <= i < |p| ==> p[i].status == Pending by {
          forall i | 0 <= i < |p| ensures p[i].status == Pending {
            assert p[i] == orders[i];
          }
        }
      } else if PendingCount(p) == |p| {
        assert forall i :: 0 <= i < |p| ==> orders[i].status == Pending by {
          forall i | 0 <= i < |p| ensures orders[i].status == Pending {
            assert p[i] == orders[i];
          }
        }
      }
    }
  }
}

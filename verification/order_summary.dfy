/** The order summary beside the ordering page, in its current form and in the
    older form kept under the pages directory: the lines it lists for the
    composed drink, and placing the order. A failing call into the order
    session is a parameter (`threw`); the session then changes nothing. */
module OrderSummary {
  import opened Wrappers
  import opened Types
  import opened Rows
  import opened Seqs
  import opened OrderService
  import opened OrderSession
  import opened Ordering
  import opened Customization

  const GUEST_NAME: string := "Khách"

  /** `customerName || 'Khách'`. */
  function NameOrGuest(name: string): (r: string)
    ensures r != []
    ensures name != [] ==> r == name
  {
    if name == [] then GUEST_NAME else name
  }

  /** The order item placed for the composed drink: sold at the page's
      total, under the entered name or the guest name. */
  function MakeItem(order: Order, totalPrice: int): OrderItem
    requires order.product.Some?
  {
    OrderItem(order.product.value, order.toppings, order.size, order.sugar, order.ice, totalPrice, Some(NameOrGuest(order.customerName)))
  }

  /** A one-drink order is priced at that drink's total. */
  lemma SingleItemTotal(order: Order, totalPrice: int)
    requires order.product.Some?
    ensures ItemsTotal([MakeItem(order, totalPrice)]) == totalPrice
  {
    var items := [MakeItem(order, totalPrice)];
    assert items[..0] == [];
    assert Sum(items, ItemPrice) == Sum(items[..0], ItemPrice) + ItemPrice(items[0]);
  }

  /** One line of the summary's customisation list. */
  datatype Line = SizeLine(size: Size) | SugarLine(sugar: string) | IceLine(ice: string) | ToppingLine(topping: Topping)

  /** One `ToppingLine` per chosen topping, in order. */
  function ToppingLines(toppings: seq<Topping>): (r: seq<Line>)
    ensures |r| == |toppings| && forall i :: 0 <= i < |r| ==> r[i] == ToppingLine(toppings[i])
  {
    seq(|toppings|, i requires 0 <= i < |toppings| => ToppingLine(toppings[i]))
  }

  /** `customizationElements`: nothing without a drink; otherwise the size
      (multi-size drinks with a size only), the sugar and ice levels when set,
      then one line per topping. */
  function CustomizationLines(order: Order): (r: seq<Line>)
    ensures order.product.None? ==> r == []
    ensures order.product.Some? ==> |r| >= |order.toppings| && r[|r| - |order.toppings|..] == ToppingLines(order.toppings)
    ensures (exists i :: 0 <= i < |r| && r[i].SizeLine?) <==> HasMultipleSizes(order.product) && order.size.Some?
    ensures forall i :: 0 <= i < |r| && r[i].SizeLine? ==> order.size == Some(r[i].size)
  {
    if order.product.None? then []
    else
      var size := if HasMultipleSizes(order.product) && order.size.Some? then [SizeLine(order.size.value)] else [];
      var sugar := if order.sugar != [] then [SugarLine(order.sugar)] else [];
      var ice := if order.ice != [] then [IceLine(order.ice)] else [];
      var head := size + sugar + ice;
      var r := head + ToppingLines(order.toppings);
      assert forall i :: 0 <= i < |r| && r[i].SizeLine? ==> i == 0 && size != [] by {
        forall i | 0 <= i < |r| && r[i].SizeLine?
          ensures i == 0 && size != []
        {
          if i < |head| {
            assert r[i] == head[i];
          }
        }
      }
      assert size != [] ==> r[0] == size[0];
      r
  }

  /** The pending order the current summary updates instead of creating
      one: set only while reordering, and only when non-empty. */
  function UpdateTarget(isReordering: bool, reorderPendingOrderId: Option<string>): Option<string>
  {
    if isReordering && reorderPendingOrderId.Some? && reorderPendingOrderId.value != [] then reorderPendingOrderId else None
  }

  /** The session call of `handlePlaceOrder`: an update of the reordered
      pending order, which keeps its id, or a new pending order. The id is
      returned, or nothing when the call failed. */
  method Submit(cache: OrderCache, order: Order, totalPrice: int, target: Option<string>, now: nat, suffix: string,
                createdAt: string, updatedAt: string, answer: Insert<PendingRow>, threw: bool)
    returns (pendingId: Option<string>)
    requires order.product.Some?
    modifies cache`pendingOrders
    ensures threw ==> pendingId.None? && cache.pendingOrders == old(cache.pendingOrders)
    ensures var name := NameOrGuest(order.customerName);
      var items := [MakeItem(order, totalPrice)];
      && (!threw && target.Some? ==>
            && pendingId == target
            && var i := IndexOfId(old(cache.StoredPending()), target.value);
               cache.pendingOrders == if i == -1 then old(cache.pendingOrders)
                 else Some(old(cache.StoredPending())[i := PendingOrder(target.value, name, items, Some(totalPrice), updatedAt, Pending)]))
      && (!threw && target.None? ==>
            && cache.pendingOrders.Some? && |cache.pendingOrders.value| == |old(cache.StoredPending())| + 1
            && cache.pendingOrders.value[1..] == old(cache.StoredPending())
            && pendingId == Some(cache.pendingOrders.value[0].id)
            && (!(answer.Inserted? && answer.echo.Some?) ==>
                  cache.pendingOrders.value[0] == NewPendingOrder(name, items, totalPrice, now, suffix, createdAt)))
  {
    if threw {
      return None;
    }
    var orderItem := MakeItem(order, totalPrice);
    SingleItemTotal(order, totalPrice);
    if target.Some? {
      UpdatePendingOrder(cache, target.value, NameOrGuest(order.customerName), [orderItem], updatedAt);
      pendingId := target;
    } else {
      var id := AddPendingOrder(cache, NameOrGuest(order.customerName), [orderItem], now, suffix, createdAt, answer);
      pendingId := Some(id);
    }
  }

  /** `handlePlaceOrder` of the current summary: without a drink nothing
      happens. Otherwise the drink is submitted, then added to the page's
      history, linked to the pending order on success and unlinked on
      failure. Both branches then schedule `onResetOrder`, so the order is
      reset even when a blank name kept it out of the history. The timers
      are collapsed: the reset is applied at once. */
  method PlaceOrder(page: OrderingPage, cache: OrderCache, now: nat, suffix: string, createdAt: string, updatedAt: string,
                    answer: Insert<PendingRow>, threw: bool, stamp: int, date: string)
    returns (pendingId: Option<string>)
    modifies page, cache`pendingOrders
    ensures old(page.order).product.None? ==> unchanged(page) && cache.pendingOrders == old(cache.pendingOrders) && pendingId.None?
    ensures old(page.order).product.Some? ==>
      && (threw ==> pendingId.None? && cache.pendingOrders == old(cache.pendingOrders))
      && (!threw && UpdateTarget(old(page.isReordering), old(page.reorderPendingOrderId)).Some? ==>
            && pendingId == old(page.reorderPendingOrderId)
            && var i := IndexOfId(old(cache.StoredPending()), pendingId.value);
               cache.pendingOrders == if i == -1 then old(cache.pendingOrders)
                 else Some(old(cache.StoredPending())[i := PendingOrder(pendingId.value, NameOrGuest(old(page.order).customerName),
                   [MakeItem(old(page.order), TotalPrice(old(page.order)))], Some(TotalPrice(old(page.order))), updatedAt, Pending)]))
      && (!threw && UpdateTarget(old(page.isReordering), old(page.reorderPendingOrderId)).None? ==>
            && cache.pendingOrders.Some? && |cache.pendingOrders.value| == |old(cache.StoredPending())| + 1
            && cache.pendingOrders.value[1..] == old(cache.StoredPending())
            && pendingId == Some(cache.pendingOrders.value[0].id)
            && (!(answer.Inserted? && answer.echo.Some?) ==>
                  cache.pendingOrders.value[0] == NewPendingOrder(NameOrGuest(old(page.order).customerName),
                    [MakeItem(old(page.order), TotalPrice(old(page.order)))], TotalPrice(old(page.order)), now, suffix, createdAt)))
      && (!IsBlankName(old(page.order)) ==>
            && page.orderHistory == NextHistory(old(page.orderHistory), old(page.order), old(page.ReorderTarget()), pendingId, stamp, date)
            && page.storedHistory == Some(page.orderHistory)
            && page.order == InitialOrder()
            && !page.isReordering && page.reorderPendingOrderId.None? && page.reorderHistoryId.None?)
      && (IsBlankName(old(page.order)) ==>
            && page.order == InitialOrder()
            && page.orderHistory == old(page.orderHistory) && page.storedHistory == old(page.storedHistory)
            && page.isReordering == old(page.isReordering)
            && page.reorderPendingOrderId == old(page.reorderPendingOrderId)
            && page.reorderHistoryId == old(page.reorderHistoryId))
  {
    if page.order.product.None? {
      return None;
    }
    var target := UpdateTarget(page.isReordering, page.reorderPendingOrderId);
    pendingId := Submit(cache, page.order, TotalPrice(page.order), target, now, suffix, createdAt, updatedAt, answer, threw);
    page.AddToHistory(pendingId, stamp, date);
    page.ResetOrder();
  }

  /** The page refuses to record a drink under a blank name. */
  predicate IsBlankName(order: Order)
  {
    Text.IsBlank(order.customerName)
  }

  /** `handlePlaceOrder` of the older summary: without a drink nothing
      happens; otherwise a new pending order is always created (never an
      update), and the caller adds the drink to history only when that
      succeeded. */
  method LegacyPlaceOrder(cache: OrderCache, order: Order, totalPrice: int, now: nat, suffix: string, createdAt: string,
                          answer: Insert<PendingRow>, threw: bool)
    returns (addToHistory: bool)
    modifies cache`pendingOrders
    ensures order.product.None? ==> !addToHistory && cache.pendingOrders == old(cache.pendingOrders)
    ensures order.product.Some? ==> addToHistory == !threw
    ensures order.product.Some? && threw ==> cache.pendingOrders == old(cache.pendingOrders)
    ensures order.product.Some? && !threw ==>
      && cache.pendingOrders.Some? && |cache.pendingOrders.value| == |old(cache.StoredPending())| + 1
      && cache.pendingOrders.value[1..] == old(cache.StoredPending())
      && (!(answer.Inserted? && answer.echo.Some?) ==>
            cache.pendingOrders.value[0] ==
              NewPendingOrder(NameOrGuest(order.customerName), [MakeItem(order, totalPrice)], totalPrice, now, suffix, createdAt))
  {
    if order.product.None? {
      return false;
    }
    if threw {
      return false;
    }
    var orderItem := MakeItem(order, totalPrice);
    SingleItemTotal(order, totalPrice);
    var _ := AddPendingOrder(cache, NameOrGuest(order.customerName), [orderItem], now, suffix, createdAt, answer);
    addToHistory := true;
  }
}

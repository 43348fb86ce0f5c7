/** The ordering page: the drink being composed, its price, the topping
    toggle, and the guest history the page keeps in browser storage. A
    history entry opened again from the history page ("reorder") is edited in
    place instead of being added anew. */
module Ordering {
  import opened Wrappers
  import opened Types
  import opened Seqs
  import opened Text
  import opened ById
  import opened Catalog

  /** `initialOrderState`: no drink, no toppings, the first size, sugar and
      ice levels, no name. */
  function InitialOrder(): (o: Order)
    ensures o.product.None? && o.toppings == [] && o.customerName == []
    ensures o.size == Some(Size(1, "Size M", 0)) && o.sugar == "100% Đường" && o.ice == "Đá Bình Thường"
  {
    DefaultsAreFirstChoices();
    Order(None, [], Some(SIZES[0]), SUGAR_LEVELS[0], ICE_LEVELS[0], [])
  }

  /** `order.size?.priceModifier || 0`. */
  function SizePrice(size: Option<Size>): int
  {
    if size.Some? then size.value.priceModifier else 0
  }

  /** `totalPrice`: nothing without a drink; otherwise the drink's price, the
      size's modifier and every topping's price. */
  function TotalPrice(order: Order): int
  {
    if order.product.None? then 0
    else order.product.value.price + SizePrice(order.size) + Sum(order.toppings, ToppingPrice)
  }

  /** `handleToppingChange`: a topping not yet chosen is appended; choosing
      it again removes every topping with its id. */
  function ToggleTopping(toppings: seq<Topping>, t: Topping): (r: seq<Topping>)
    ensures !HasKey(toppings, t.id, ToppingId) ==> r == toppings + [t]
    ensures HasKey(toppings, t.id, ToppingId) ==> r == Remove(toppings, t.id, ToppingId) && !HasKey(r, t.id, ToppingId)
  {
    if HasKey(toppings, t.id, ToppingId) then Remove(toppings, t.id, ToppingId) else toppings + [t]
  }

  /** Toggling a topping that was not chosen, twice, restores the list. */
  lemma ToggleTwice(toppings: seq<Topping>, t: Topping)
    requires !HasKey(toppings, t.id, ToppingId)
    ensures ToggleTopping(ToggleTopping(toppings, t), t) == toppings
  {
    var added := toppings + [t];
    assert HasKey(added, t.id, ToppingId) by {
      assert ToppingId(added[|toppings|]) == t.id;
    }
    RemoveAppend(toppings, [t], t.id, ToppingId);
    RemoveAbsent(toppings, t.id, ToppingId);
    assert Remove([t], t.id, ToppingId) == [] by {
      assert [t][..0] == [];
    }
  }

  /** Adding a topping to a drink raises its price by the topping's price. */
  lemma ToggleOnAddsPrice(order: Order, t: Topping)
    requires order.product.Some? && !HasKey(order.toppings, t.id, ToppingId)
    ensures TotalPrice(order.(toppings := ToggleTopping(order.toppings, t))) == TotalPrice(order) + t.price
  {
    SumAppend(order.toppings, [t], ToppingPrice);
    assert Sum([t], ToppingPrice) == t.price by {
      assert [t][..0] == [];
    }
  }

  /** Un-choosing a topping chosen once lowers the price of the drink by
      exactly that topping's price. */
  lemma ToggleOffSubtractsPrice(order: Order, pre: seq<Topping>, x: Topping, post: seq<Topping>)
    requires order.product.Some? && order.toppings == pre + [x] + post
    requires !HasKey(pre, x.id, ToppingId) && !HasKey(post, x.id, ToppingId)
    ensures TotalPrice(order.(toppings := ToggleTopping(order.toppings, x))) == TotalPrice(order) - x.price
  {
    assert HasKey(order.toppings, x.id, ToppingId) by {
      assert ToppingId(order.toppings[|pre|]) == x.id;
    }
    assert x.id == ToppingId(x);
    RemoveOnly(pre, x, post, ToppingId);
    assert ToggleTopping(order.toppings, x) == pre + post;
    SumAppend(pre + [x], post, ToppingPrice);
    SumAppend(pre, [x], ToppingPrice);
    SumAppend(pre, post, ToppingPrice);
    assert Sum([x], ToppingPrice) == x.price by {
      assert [x][..0] == [];
    }
  }

  /** A history id as JavaScript truth sees it: 0 and "" are false. */
  predicate Truthy(id: HistoryId)
  {
    match id
    case Stamp(ms) => ms != 0
    case ItemId(text) => text != []
  }

  /** The history entry made from the composed drink. */
  function HistoryItem(id: HistoryId, date: string, order: Order, pendingOrderId: Option<string>): (h: HistoricOrder)
    ensures h.id == id && h.date == date && h.totalPrice == TotalPrice(order) && h.pendingOrderId == pendingOrderId
    ensures h.product == order.product && h.toppings == order.toppings && h.size == order.size
    ensures h.sugar == order.sugar && h.ice == order.ice && h.customerName == order.customerName
  {
    HistoricOrder(id, date, order.product, order.toppings, order.size, order.sugar, order.ice,
                  order.customerName, TotalPrice(order), pendingOrderId)
  }

  /** The history after `handleAddToHistory` with a drink and a name. When
      reordering, the entries with the reordered id are replaced by the new
      drink, every id and the length stay; otherwise a new entry stamped
      `now` goes in front. */
  function NextHistory(history: seq<HistoricOrder>, order: Order, reorderId: Option<HistoryId>,
                       pendingOrderId: Option<string>, now: int, date: string)
    : (r: seq<HistoricOrder>)
    ensures reorderId.Some? ==> |r| == |history| && forall i :: 0 <= i < |r| ==>
      && r[i].id == history[i].id
      && r[i] == if history[i].id == reorderId.value then HistoryItem(reorderId.value, date, order, pendingOrderId) else history[i]
    ensures reorderId.None? ==> |r| == |history| + 1 && r[0] == HistoryItem(Stamp(now), date, order, pendingOrderId) && r[1..] == history
  {
    if reorderId.Some? then Replace(history, reorderId.value, HistoryItem(reorderId.value, date, order, pendingOrderId), HistoricId)
    else [HistoryItem(Stamp(now), date, order, pendingOrderId)] + history
  }

  /** The ordering page's state. */
  class OrderingPage {
    var order: Order
    var orderHistory: seq<HistoricOrder>
    /** `localStorage.katuu_order_history` */
    var storedHistory: Option<seq<HistoricOrder>>
    var isReordering: bool
    var reorderPendingOrderId: Option<string>
    var reorderHistoryId: Option<HistoryId>

    constructor (storedHistory: Option<seq<HistoricOrder>>)
      ensures order == InitialOrder() && orderHistory == storedHistory.GetOr([]) && this.storedHistory == storedHistory
      ensures !isReordering && reorderPendingOrderId.None? && reorderHistoryId.None?
    {
      order := InitialOrder();
      orderHistory := storedHistory.GetOr([]);
      this.storedHistory := storedHistory;
      isReordering := false;
      reorderPendingOrderId := None;
      reorderHistoryId := None;
    }

    /** The reorder id `handleAddToHistory` acts on: set only while
        reordering, and only when truthy. */
    function ReorderTarget(): (r: Option<HistoryId>)
      reads this
      ensures r.Some? <==> isReordering && reorderHistoryId.Some? && Truthy(reorderHistoryId.value)
      ensures r.Some? ==> r == reorderHistoryId
    {
      if isReordering && reorderHistoryId.Some? && Truthy(reorderHistoryId.value) then reorderHistoryId else None
    }

    /** The reorder hand-off from the history page: the stored entry's drink
        is restored, with its pending order and history ids kept for the
        update. */
    method RestoreReorder(entry: Option<HistoricOrder>)
      modifies this
      ensures entry.None? ==> unchanged(this)
      ensures entry.Some? ==>
        var h := entry.value;
        && order == Order(h.product, h.toppings, h.size, h.sugar, h.ice, h.customerName)
        && isReordering && reorderPendingOrderId == h.pendingOrderId && reorderHistoryId == Some(h.id)
        && orderHistory == old(orderHistory) && storedHistory == old(storedHistory)
    {
      if entry.Some? {
        var h := entry.value;
        order := Order(h.product, h.toppings, h.size, h.sugar, h.ice, h.customerName);
        isReordering := true;
        reorderPendingOrderId := h.pendingOrderId;
        reorderHistoryId := Some(h.id);
      }
    }

    /** `handleToppingChange`. */
    method ChangeTopping(t: Topping)
      modifies this`order
      ensures order == old(order).(toppings := ToggleTopping(old(order).toppings, t))
    {
      order := order.(toppings := ToggleTopping(order.toppings, t));
    }

    /** `handleResetOrder`: the order goes back to the initial order; the
        history and the reorder state stay. */
    method ResetOrder()
      modifies this`order
      ensures order == InitialOrder()
    {
      order := InitialOrder();
    }

    /** `handleAddToHistory`: without a drink or with a blank name nothing
        happens. Otherwise the history becomes `NextHistory`, is stored, the
        reorder state is cleared and the order is reset. */
    method AddToHistory(pendingOrderId: Option<string>, now: int, date: string)
      modifies this
      ensures old(order).product.None? || IsBlank(old(order).customerName) ==> unchanged(this)
      ensures old(order).product.Some? && !IsBlank(old(order).customerName) ==>
        && orderHistory == NextHistory(old(orderHistory), old(order), old(ReorderTarget()), pendingOrderId, now, date)
        && storedHistory == Some(orderHistory)
        && !isReordering && reorderPendingOrderId.None? && reorderHistoryId.None?
        && order == InitialOrder()
    {
      if order.product.None? || IsBlank(order.customerName) {
        return;
      }
      var updatedHistory;
      if isReordering && reorderHistoryId.Some? && Truthy(reorderHistoryId.value) {
        var updatedItem := HistoryItem(reorderHistoryId.value, date, order, pendingOrderId);
        updatedHistory := Replace(orderHistory, updatedItem.id, updatedItem, HistoricId);
      } else {
        var newHistoryItem := HistoryItem(Stamp(now), date, order, pendingOrderId);
        updatedHistory := [newHistoryItem] + orderHistory;
      }
      orderHistory := updatedHistory;
      storedHistory := Some(updatedHistory);
      isReordering := false;
      reorderPendingOrderId := None;
      reorderHistoryId := None;
      ResetOrder();
    }
  }
}

/** The guest's history page: entries whose pending order has since been
    merged or deleted are cleaned out once the pending orders have loaded,
    and an entry can be deleted together with its pending order. */
module HistoryPage {
  import opened Wrappers
  import opened Types
  import opened ById
  import opened OrderService

  /** The entry is linked to a pending order (`item.pendingOrderId` is truthy). */
  predicate Linked(entry: HistoricOrder)
  {
    entry.pendingOrderId.Some? && entry.pendingOrderId.value != []
  }

  /** Some pending order has id `id`. */
  predicate StillPending(pending: seq<PendingOrder>, id: string)
  {
    exists j :: 0 <= j < |pending| && pending[j].id == id
  }

  /** An entry survives the clean-up when it is unlinked or its pending order
      still exists. */
  predicate Keep(entry: HistoricOrder, pending: seq<PendingOrder>)
  {
    !Linked(entry) || StillPending(pending, entry.pendingOrderId.value)
  }

  /** The auto clean-up filter, in history order. */
  function CleanHistory(history: seq<HistoricOrder>, pending: seq<PendingOrder>): (r: seq<HistoricOrder>)
    ensures |r| <= |history|
    ensures forall i :: 0 <= i < |r| ==> r[i] in history && Keep(r[i], pending)
    ensures forall i :: 0 <= i < |history| && Keep(history[i], pending) ==> history[i] in r
  {
    if history == [] then []
    else
      var last := history[|history| - 1];
      CleanHistory(history[..|history| - 1], pending) + (if Keep(last, pending) then [last] else [])
  }

  /** The clean-up removed nothing exactly when the length is unchanged, and
      then the history is exactly as it was. */
  lemma {:induction false} CleanHistoryUnchanged(history: seq<HistoricOrder>, pending: seq<PendingOrder>)
    ensures |CleanHistory(history, pending)| == |history| <==> CleanHistory(history, pending) == history
    ensures CleanHistory(history, pending) == history <==> forall i :: 0 <= i < |history| ==> Keep(history[i], pending)
    decreases |history|
  {
    if history != [] {
      var p := history[..|history| - 1];
      var last := history[|history| - 1];
      CleanHistoryUnchanged(p, pending);
      assert history == p + [last];
      if forall i :: 0 <= i < |history| ==> Keep(history[i], pending) {
        assert forall i :: 0 <= i < |p| ==> Keep(p[i], pending) by {
          forall i | 0 <= i < |p| ensures Keep(p[i], pending) {
            assert p[i] == history[i];
          }
        }
      }
    }
  }

  /** The page's state and the stored history it reads and rewrites. */
  class HistoryView {
    var orderHistory: seq<HistoricOrder>
    /** `localStorage.katuu_order_history` */
    var storedHistory: Option<seq<HistoricOrder>>
    var isLoading: bool

    constructor (storedHistory: Option<seq<HistoricOrder>>)
      ensures orderHistory == [] && this.storedHistory == storedHistory && isLoading
    {
      orderHistory := [];
      this.storedHistory := storedHistory;
      isLoading := true;
    }

    /** `loadHistory`: with a stored history, it is shown as is while the
        pending orders are loading, and cleaned otherwise; the stored copy is
        rewritten only when the clean-up removed something. */
    method LoadHistory(pending: seq<PendingOrder>, loadingOrders: bool)
      modifies this
      ensures !isLoading
      ensures old(storedHistory).None? ==> orderHistory == old(orderHistory) && storedHistory == None
      ensures old(storedHistory).Some? && loadingOrders ==>
        orderHistory == old(storedHistory).value && storedHistory == old(storedHistory)
      ensures old(storedHistory).Some? && !loadingOrders ==>
        && orderHistory == CleanHistory(old(storedHistory).value, pending)
        && storedHistory == Some(orderHistory)
        && (orderHistory == old(storedHistory).value <==> |orderHistory| == |old(storedHistory).value|)
    {
      if storedHistory.Some? {
        var history := storedHistory.value;
        var validHistory := history;
        if !loadingOrders {
          validHistory := CleanHistory(history, pending);
          CleanHistoryUnchanged(history, pending);
          if |validHistory| != |history| {
            storedHistory := Some(validHistory);
          }
        }
        orderHistory := validHistory;
      }
      isLoading := false;
    }

    /** `handleDeleteOrder`: the entries with that id leave the page and the
        stored copy. When the first of them was linked, its pending order is
        deleted too; if that fails (`threw`) the local removal stays. */
    method DeleteOrder(orderId: HistoryId, cache: OrderCache, threw: bool)
      modifies this`orderHistory, this`storedHistory, cache`pendingOrders
      ensures orderHistory == Remove(old(orderHistory), orderId, HistoricId) && storedHistory == Some(orderHistory)
      ensures var i := IndexOfKey(old(orderHistory), orderId, HistoricId);
        cache.pendingOrders ==
          if i == -1 || !Linked(old(orderHistory)[i]) || threw || old(cache.pendingOrders).None? then old(cache.pendingOrders)
          else Some(Remove(old(cache.pendingOrders).value, old(orderHistory)[i].pendingOrderId.value, OrderId))
    {
      var history := orderHistory;
      var i := IndexOfKey(history, orderId, HistoricId);
      var updatedHistory := Remove(history, orderId, HistoricId);
      orderHistory := updatedHistory;
      storedHistory := Some(updatedHistory);
      if i != -1 && Linked(history[i]) && !threw {
        cache.DeletePendingOrder(history[i].pendingOrderId.value);
      }
    }
  }
}

/** The staff panel of pending orders: the orders still pending, the set of
    orders picked for merging (a JavaScript `Set`, so it keeps insertion
    order), the totals of the picked orders and the merge button. */
module PendingPanel {
  import opened Wrappers
  import opened Types
  import opened Seqs
  import opened OrderService
  import opened OrderSession

  /** Only staff and admins see the panel; everyone else gets the
      access-denied view. */
  predicate CanSeePanel(user: Option<User>)
  {
    user.Some? && (user.value.role == STAFF || user.value.role == ADMIN)
  }

  /** `selectedOrdersData`: the pending orders on screen that are picked. */
  function SelectedOrders(pending: seq<PendingOrder>, selected: seq<string>): (r: seq<PendingOrder>)
    ensures forall i :: 0 <= i < |r| ==> r[i].status == Pending && r[i].id in selected && r[i] in pending
    ensures forall i :: 0 <= i < |pending| && pending[i].status == Pending && pending[i].id in selected ==> pending[i] in r
    ensures r == Filter(pending, (o: PendingOrder) => o.status == Pending && o.id in selected)
  {
    var r := Matched(ActiveOrders(pending), selected);
    MatchedIsFilter(ActiveOrders(pending), selected);
    FilterFilter(pending, IsActive, (o: PendingOrder) => o.id in selected,
                 (o: PendingOrder) => o.status == Pending && o.id in selected);
    r
  }

  function ItemsCount(o: PendingOrder): int
  {
    |o.items|
  }

  /** `totalSelectedPrice`: a missing total adds nothing. */
  function SelectedPrice(pending: seq<PendingOrder>, selected: seq<string>): int
  {
    Sum(SelectedOrders(pending, selected), TotalOrZero)
  }

  /** `totalSelectedItems`. */
  function SelectedItems(pending: seq<PendingOrder>, selected: seq<string>): int
  {
    Sum(SelectedOrders(pending, selected), ItemsCount)
  }

  lemma {:induction false} AllItemsCount(orders: seq<PendingOrder>)
    ensures |AllItems(orders)| == Sum(orders, ItemsCount)
    decreases |orders|
  {
    if orders != [] {
      AllItemsCount(orders[..|orders| - 1]);
    }
  }

  /** When every order on screen is pending, the totals the panel shows for
      the picked orders are the total price and item count of the order a
      merge of them would build. */
  lemma SelectedTotalsAreMergedTotals(pending: seq<PendingOrder>, selected: seq<string>, mergedBy: string, id: string, mergedAt: string)
    requires forall i :: 0 <= i < |pending| ==> pending[i].status == Pending
    requires BuildMergedOrder(selected, mergedBy, pending, id, mergedAt).Ok?
    ensures var m := BuildMergedOrder(selected, mergedBy, pending, id, mergedAt).value;
            SelectedPrice(pending, selected) == m.totalPrice && SelectedItems(pending, selected) == m.totalItems
  {
    FilterAll(pending, IsActive);
    AllItemsCount(Matched(pending, selected));
  }

  /** What the merge button asks the order session to do. */
  datatype MergeRequest = MergeRequest(orderIds: seq<string>, mergedBy: string)

  /** The panel's own state: the picked order ids. */
  class PendingOrdersPanel {
    var selected: seq<string>

    ghost predicate Valid()
      reads this
    {
      NoDup(selected)
    }

    constructor ()
      ensures selected == [] && Valid()
    {
      selected := [];
    }

    /** `toggleSelect`. */
    method ToggleSelect(orderId: string)
      requires Valid()
      modifies this
      ensures Valid()
      ensures selected == Toggled(old(selected), orderId)
    {
      if orderId in selected {
        var i := IndexOf(selected, orderId);
        selected := selected[..i] + selected[i + 1..];
      } else {
        selected := selected + [orderId];
      }
    }

    /** `selectAll`: when as many ids are picked as orders are pending, the
        selection is emptied; otherwise it becomes the pending orders' ids. */
    method SelectAll(pending: seq<PendingOrder>)
      requires Valid()
      modifies this
      ensures Valid()
      ensures |old(selected)| == PendingCount(pending) ==> selected == []
      ensures |old(selected)| != PendingCount(pending) ==> selected == Dedup(IdsOf(ActiveOrders(pending)))
    {
      if |selected| == PendingCount(pending) {
        selected := [];
      } else {
        selected := Dedup(IdsOf(ActiveOrders(pending)));
      }
    }

    /** `handleMerge`: nothing without a pick or a user; otherwise the picked
        ids, in the order they were picked, are merged under the user's
        name and the selection is emptied. */
    method HandleMerge(user: Option<User>) returns (request: Option<MergeRequest>)
      requires Valid()
      modifies this
      ensures Valid()
      ensures old(selected) == [] || user.None? ==> request.None? && selected == old(selected)
      ensures old(selected) != [] && user.Some? ==> request == Some(MergeRequest(old(selected), user.value.username)) && selected == []
    {
      if |selected| == 0 || user.None? {
        return None;
      }
      request := Some(MergeRequest(selected, user.value.username));
      selected := [];
    }
  }

  /** The ids of some orders, in order. */
  function IdsOf(orders: seq<PendingOrder>): seq<string>
  {
    seq(|orders|, i requires 0 <= i < |orders| => orders[i].id)
  }

  /** The selection after toggling `orderId`: a picked id is dropped (the
      others keep their order); an unpicked one is added last. */
  function Toggled(selected: seq<string>, orderId: string): (r: seq<string>)
    requires NoDup(selected)
    ensures NoDup(r)
    ensures orderId in selected ==> orderId !in r && |r| == |selected| - 1
    ensures orderId !in selected ==> r == selected + [orderId]
    ensures forall x :: x != orderId ==> (x in r <==> x in selected)
  {
    if orderId in selected then
      var i := IndexOf(selected, orderId);
      assert selected == selected[..i] + [orderId] + selected[i + 1..];
      selected[..i] + selected[i + 1..]
    else selected + [orderId]
  }

  /** Toggling the same id twice picks the same ids as before, and restores
      the selection exactly when the id was not picked. */
  lemma ToggleTwice(selected: seq<string>, orderId: string)
    requires NoDup(selected)
    ensures forall x :: x in Toggled(Toggled(selected, orderId), orderId) <==> x in selected
    ensures orderId !in selected ==> Toggled(Toggled(selected, orderId), orderId) == selected
  {
    if orderId !in selected {
      var once := selected + [orderId];
      IndexOfUnique(once, orderId, |selected|);
      assert once[..|selected|] == selected;
    }
  }
}

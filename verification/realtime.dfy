/** The realtime orders hook: the pending and merged order lists the staff
    screens show, loaded once and then kept current by the store's change
    events. Only the state transitions are modelled; the subscription itself
    and the notification are not. */
module Realtime {
  import opened Wrappers
  import opened Types
  import opened Rows
  import opened ById

  const FETCH_FAILED: string := "Failed to fetch orders"

  /** A change event on one table: the new row of an INSERT or UPDATE, the
      old row's id of a DELETE, or any other event type. */
  datatype Change<R> = RowInserted(row: R) | RowUpdated(row: R) | RowDeleted(id: string) | OtherChange

  /** The list after one change event, with rows converted by `convert`:
      an inserted record goes in front, an updated one replaces the records
      with its id, and a deletion drops the records with that id. */
  function Reduce<R, T>(list: seq<T>, change: Change<R>, convert: R -> T, id: T -> string): (r: seq<T>)
    ensures change.RowInserted? ==> r == [convert(change.row)] + list
    ensures change.RowUpdated? ==> |r| == |list| && forall i :: 0 <= i < |list| ==>
      r[i] == if id(list[i]) == id(convert(change.row)) then convert(change.row) else list[i]
    ensures change.RowDeleted? ==> r == Remove(list, change.id, id)
    ensures change.OtherChange? ==> r == list
  {
    match change
    case RowInserted(row) => [convert(row)] + list
    case RowUpdated(row) => Replace(list, id(convert(row)), convert(row), id)
    case RowDeleted(k) => Remove(list, k, id)
    case OtherChange => list
  }

  /** A row inserted and then deleted leaves the list as it was, provided its
      id was new. */
  lemma InsertThenDelete<R, T>(list: seq<T>, row: R, convert: R -> T, id: T -> string)
    requires !HasKey(list, id(convert(row)), id)
    ensures Reduce(Reduce(list, RowInserted(row), convert, id), RowDeleted(id(convert(row))), convert, id) == list
  {
    RemovePrepended(list, convert(row), id);
  }

  /** Deleting an id twice is deleting it once. */
  lemma DeleteTwice<R, T>(list: seq<T>, k: string, convert: R -> T, id: T -> string)
    ensures var once := Reduce(list, RowDeleted(k), convert, id);
            Reduce(once, RowDeleted(k), convert, id) == once
  {
    RemoveIdempotent(list, k, id);
  }

  /** An update for an id the list does not hold changes nothing. */
  lemma UpdateOfUnknownId<R, T>(list: seq<T>, row: R, convert: R -> T, id: T -> string)
    requires !HasKey(list, id(convert(row)), id)
    ensures Reduce(list, RowUpdated(row), convert, id) == list
  {
    ReplaceAbsent(list, id(convert(row)), convert(row), id);
  }

  /** What the initial fetch got from the store: both result sets (either may
      be `null`), or an error with its message, if it has one. */
  datatype Snapshot = Loaded(pending: Option<seq<PendingRow>>, merged: Option<seq<MergedRow>>) | Failed(message: Option<string>)

  /** The hook's state and the two browser-storage copies it keeps. */
  class RealtimeOrders {
    var pendingOrders: seq<PendingOrder>
    var mergedOrders: seq<MergedOrder>
    var isLoading: bool
    var error: Option<string>
    /** `localStorage.pendingOrders` */
    var storedPending: Option<seq<PendingOrder>>
    /** `localStorage.mergedOrders` */
    var storedMerged: Option<seq<MergedOrder>>

    constructor (storedPending: Option<seq<PendingOrder>>, storedMerged: Option<seq<MergedOrder>>)
      ensures pendingOrders == [] && mergedOrders == [] && isLoading && error == None
      ensures this.storedPending == storedPending && this.storedMerged == storedMerged
    {
      pendingOrders := [];
      mergedOrders := [];
      isLoading := true;
      error := None;
      this.storedPending := storedPending;
      this.storedMerged := storedMerged;
    }

    /** `fetchOrders`. Without a store the stored copies are shown. A loaded
        snapshot replaces both lists and the stored copies. A failure keeps
        both lists, stops loading and records the error's message, or
        "Failed to fetch orders" when it has none. */
    method FetchOrders(configured: bool, snapshot: Snapshot)
      modifies this
      ensures !isLoading
      ensures !configured ==>
        && pendingOrders == old(storedPending).GetOr([]) && mergedOrders == old(storedMerged).GetOr([])
        && error == None && storedPending == old(storedPending) && storedMerged == old(storedMerged)
      ensures configured && snapshot.Loaded? ==>
        && pendingOrders == MapRows(snapshot.pending, PendingFromRow)
        && mergedOrders == MapRows(snapshot.merged, MergedFromRow)
        && error == None && storedPending == Some(pendingOrders) && storedMerged == Some(mergedOrders)
      ensures configured && snapshot.Failed? ==>
        && pendingOrders == old(pendingOrders) && mergedOrders == old(mergedOrders)
        && error == Some(snapshot.message.GetOr(FETCH_FAILED))
        && storedPending == old(storedPending) && storedMerged == old(storedMerged)
    {
      if !configured {
        pendingOrders := storedPending.GetOr([]);
        mergedOrders := storedMerged.GetOr([]);
        isLoading := false;
        error := None;
        return;
      }
      isLoading := true;
      error := None;
      match snapshot
      case Loaded(pendingRows, mergedRows) =>
        var pending := MapRows(pendingRows, PendingFromRow);
        var merged := MapRows(mergedRows, MergedFromRow);
        pendingOrders := pending;
        mergedOrders := merged;
        isLoading := false;
        error := None;
        storedPending := Some(pending);
        storedMerged := Some(merged);
      case Failed(message) =>
        isLoading := false;
        error := Some(message.GetOr(FETCH_FAILED));
    }

    /** The `pending_orders` channel handler: only the pending list and its
        stored copy change. */
    method OnPendingChange(change: Change<PendingRow>)
      modifies this`pendingOrders, this`storedPending
      ensures pendingOrders == Reduce(old(pendingOrders), change, PendingFromRow, OrderId)
      ensures storedPending == Some(pendingOrders)
    {
      var updated := pendingOrders;
      if change.RowInserted? {
        var newOrder := PendingFromRow(change.row);
        updated := [newOrder] + updated;
      } else if change.RowUpdated? {
        var updatedOrder := PendingFromRow(change.row);
        updated := Replace(updated, updatedOrder.id, updatedOrder, OrderId);
      } else if change.RowDeleted? {
        updated := Remove(updated, change.id, OrderId);
      }
      storedPending := Some(updated);
      pendingOrders := updated;
    }

    /** The `merged_orders` channel handler: only the merged list and its
        stored copy change. */
    method OnMergedChange(change: Change<MergedRow>)
      modifies this`mergedOrders, this`storedMerged
      ensures mergedOrders == Reduce(old(mergedOrders), change, MergedFromRow, MergedId)
      ensures storedMerged == Some(mergedOrders)
    {
      var updated := mergedOrders;
      if change.RowInserted? {
        var newOrder := MergedFromRow(change.row);
        updated := [newOrder] + updated;
      } else if change.RowUpdated? {
        var updatedOrder := MergedFromRow(change.row);
        updated := Replace(updated, updatedOrder.id, updatedOrder, MergedId);
      } else if change.RowDeleted? {
        updated := Remove(updated, change.id, MergedId);
      }
      storedMerged := Some(updated);
      mergedOrders := updated;
    }
  }
}

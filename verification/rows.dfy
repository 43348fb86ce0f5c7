/** The store's snake_case rows and their conversion to and from the
    application's camelCase records. The server's `map*Rows` helpers, the
    order service's conversions and the realtime hook's converters are the
    same field-by-field renaming; it is defined once here. Field names follow
    the store's column names. */
module Rows {
  import opened Wrappers
  import opened Types

  datatype SizeRow = SizeRow(id: int, name: string, price_modifier: int)

  datatype PendingRow = PendingRow(
    id: string,
    customer_name: string,
    items: seq<OrderItem>,
    total_price: Option<int>,
    created_at: string,
    status: OrderStatus)

  datatype MergedRow = MergedRow(
    id: string,
    pending_order_ids: seq<string>,
    customer_names: seq<string>,
    total_items: int,
    total_price: int,
    merged_by: string,
    merged_at: string,
    items: seq<OrderItem>)

  function SizeToRow(s: Size): SizeRow
  {
    SizeRow(s.id, s.name, s.priceModifier)
  }

  /** `price_modifier` becomes `priceModifier`; converting back gives the row. */
  function SizeFromRow(r: SizeRow): (s: Size)
    ensures SizeToRow(s) == r
  {
    Size(r.id, r.name, r.price_modifier)
  }

  function PendingToRow(o: PendingOrder): PendingRow
  {
    PendingRow(o.id, o.customerName, o.items, o.totalPrice, o.createdAt, o.status)
  }

  /** Every column lands in its field; converting back gives the row. */
  function PendingFromRow(r: PendingRow): (o: PendingOrder)
    ensures PendingToRow(o) == r
  {
    PendingOrder(r.id, r.customer_name, r.items, r.total_price, r.created_at, r.status)
  }

  function MergedToRow(m: MergedOrder): MergedRow
  {
    MergedRow(m.id, m.pendingOrderIds, m.customerNames, m.totalItems, m.totalPrice, m.mergedBy, m.mergedAt, m.items)
  }

  /** Every column lands in its field; converting back gives the row. */
  function MergedFromRow(r: MergedRow): (m: MergedOrder)
    ensures MergedToRow(m) == r
  {
    MergedOrder(r.id, r.pending_order_ids, r.customer_names, r.total_items, r.total_price, r.merged_by, r.merged_at, r.items)
  }

  /** Converting a record to a row and back loses nothing. */
  lemma RecordsSurviveRows(s: Size, o: PendingOrder, m: MergedOrder)
    ensures SizeFromRow(SizeToRow(s)) == s
    ensures PendingFromRow(PendingToRow(o)) == o
    ensures MergedFromRow(MergedToRow(m)) == m
  {
  }

  /** `(rows || []).map(convert)`: a `null` result set reads as empty. */
  function MapRows<R, T>(rows: Option<seq<R>>, convert: R -> T): (r: seq<T>)
    ensures rows.None? ==> r == []
    ensures rows.Some? ==> |r| == |rows.value| && forall i :: 0 <= i < |r| ==> r[i] == convert(rows.value[i])
  {
    match rows
    case None => []
    case Some(rs) => seq(|rs|, i requires 0 <= i < |rs| => convert(rs[i]))
  }
}

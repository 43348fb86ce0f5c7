/** The Express server's store-backed handlers that carry business rules: the
    category delete guard, placing a pending order, and merging pending orders.
    The store is the state of a `Database` object; whether a store call fails
    is a parameter of the handler, and a successful insert echoes the row it
    was given. Ids and timestamps are parameters too. */
module ServerStore {
  import opened Wrappers
  import opened Types
  import opened Rows
  import opened Seqs
  import opened Text
  import opened OrderService
  import opened ServerAuth

  const CATEGORY_IN_USE: string := "Category in use"
  const DELETE_CATEGORY_FAILED: string := "Failed to delete category"
  const INVALID_ORDER_DATA: string := "Invalid order data"
  const CREATE_PENDING_FAILED: string := "Failed to create pending order"
  const INVALID_ORDER_IDS: string := "Invalid orderIds"
  const NO_ORDERS_FOUND: string := "No orders found"
  const MERGE_FAILED: string := "Failed to merge orders"

  /** An HTTP answer: a JSON body, or a status code with `{ error }`. */
  datatype Reply<T> = Success(body: T) | Failure(status: int, error: string)

  /** The reply a refusing middleware sends. */
  function Refused<T>(g: Gate): (r: Reply<T>)
    requires g.Refuse?
    ensures r.Failure? && r.status == g.status && r.error == g.error
  {
    Failure(g.status, g.error)
  }

  /** `authMiddleware` followed by `requireAdmin`. */
  function AdminGate(user: Option<ServerUser>): (g: Gate)
    ensures g.Pass? <==> user.Some? && user.value.role == ADMIN
    ensures g.Refuse? ==> g == Refuse(401, UNAUTHORIZED) || g == Refuse(403, ADMIN_REQUIRED)
  {
    var a := Authenticate(user);
    if a.Refuse? then a else RequireAdmin(user)
  }

  /** `authMiddleware` followed by the staff/admin role check of the order endpoints. */
  function StaffGate(user: Option<ServerUser>): (g: Gate)
    ensures g.Pass? <==> user.Some? && (user.value.role == STAFF || user.value.role == ADMIN)
    ensures g.Refuse? ==> g == Refuse(401, UNAUTHORIZED) || g == Refuse(403, STAFF_REQUIRED)
  {
    var a := Authenticate(user);
    if a.Refuse? then a else RequireStaff(user.value)
  }

  // ---------------------------------------------------------------- categories

  /** Some product lists the category (`select('id').eq('category', id).limit(1)` is non-empty). */
  predicate CategoryInUse(products: seq<Product>, id: string)
  {
    exists i :: 0 <= i < |products| && products[i].category == id
  }

  // ---------------------------------------------------------------- pending orders

  /** The body of `POST /api/orders/pending`. A field that is absent, or (for
      `items`) not an array, is `None`. */
  datatype PendingBody = PendingBody(customerName: Option<string>, items: Option<seq<OrderItem>>, totalPrice: Option<int>)

  /** `!customerName || !items || !Array.isArray(items)`. */
  predicate InvalidPendingBody(body: PendingBody)
  {
    body.customerName.None? || body.customerName.value == [] || body.items.None?
  }

  /** `totalPrice || items.reduce((s, it) => s + it.price, 0)`: a missing or
      zero total is replaced by the sum of the item prices. */
  function StoredTotal(totalPrice: Option<int>, items: seq<OrderItem>): int
  {
    if totalPrice.Some? && totalPrice.value != 0 then totalPrice.value else Sum(items, ItemPrice)
  }

  /** A client that sends the sum of its item prices (as the order session
      does) gets exactly that sum stored, whichever branch is taken. */
  lemma StoredTotalOfItemSum(items: seq<OrderItem>)
    ensures StoredTotal(Some(Sum(items, ItemPrice)), items) == Sum(items, ItemPrice)
  {
  }

  // ---------------------------------------------------------------- merge

  /** `pendingRows.map(r => ({ id: r.id, customerName: r.customer_name, ... }))`. */
  function Converted(rows: seq<PendingRow>): (r: seq<PendingOrder>)
    ensures |r| == |rows| && forall i :: 0 <= i < |rows| ==> r[i] == PendingFromRow(rows[i])
  {
    if rows == [] then [] else Converted(rows[..|rows| - 1]) + [PendingFromRow(rows[|rows| - 1])]
  }

  /** `select('*').in('id', orderIds)`: the stored rows whose id was requested,
      in store order. */
  function RowsWithIds(rows: seq<PendingRow>, ids: seq<string>): (r: seq<PendingRow>)
    ensures |r| <= |rows|
    ensures forall i :: 0 <= i < |r| ==> r[i].id in ids && r[i] in rows
    ensures forall i :: 0 <= i < |rows| && rows[i].id in ids ==> rows[i] in r
  {
    if rows == [] then []
    else
      var last := rows[|rows| - 1];
      RowsWithIds(rows[..|rows| - 1], ids) + (if last.id in ids then [last] else [])
  }

  /** `delete().in('id', orderIds)`: the stored rows whose id was not requested. */
  function RowsWithoutIds(rows: seq<PendingRow>, ids: seq<string>): (r: seq<PendingRow>)
    ensures |r| <= |rows|
    ensures forall i :: 0 <= i < |r| ==> r[i].id !in ids && r[i] in rows
    ensures forall i :: 0 <= i < |rows| && rows[i].id !in ids ==> rows[i] in r
  {
    if rows == [] then []
    else
      var last := rows[|rows| - 1];
      RowsWithoutIds(rows[..|rows| - 1], ids) + (if last.id !in ids then [last] else [])
  }

  /** Fetching the requested rows and converting them gives the orders the
      client-side merge would select from the whole converted table. */
  lemma {:induction false} ConvertedRowsWithIds(rows: seq<PendingRow>, ids: seq<string>)
    ensures Converted(RowsWithIds(rows, ids)) == Matched(Converted(rows), ids)
    decreases |rows|
  {
    if rows != [] {
      var p := rows[..|rows| - 1];
      var last := rows[|rows| - 1];
      ConvertedRowsWithIds(p, ids);
      assert Converted(rows)[..|rows| - 1] == Converted(p);
      var w := RowsWithIds(p, ids);
      if last.id in ids {
        assert (w + [last])[..|w + [last]| - 1] == w;
      } else {
        assert w + [] == w;
      }
    }
  }

  /** The merged order the handler builds from the rows it fetched: items
      concatenated in store order, totals summed with a missing total as 0,
      names de-duplicated in first-seen order, ids as requested. */
  function MergeRows(orderIds: seq<string>, mergedBy: string, rows: seq<PendingOrder>, id: string, mergedAt: string)
    : MergedOrder
  {
    var items := AllItems(rows);
    MergedOrder(id, orderIds, Dedup(NamesOf(rows)), |items|, Sum(rows, TotalOrZero), mergedBy, mergedAt, items)
  }

  /** The server's merge is the client's `createMergedOrder` aggregation run
      over the whole pending table in store order: it fails with 404 exactly
      when the client's would fail with "No orders to merge", and otherwise
      builds the same merged order. */
  lemma ServerMergeIsClientMerge(rows: seq<PendingRow>, orderIds: seq<string>, mergedBy: string, id: string, mergedAt: string)
    ensures var found := Converted(RowsWithIds(rows, orderIds));
            var built := BuildMergedOrder(orderIds, mergedBy, Converted(rows), id, mergedAt);
            && (found == [] <==> built.Err?)
            && (found != [] ==> built == Ok(MergeRows(orderIds, mergedBy, found, id, mergedAt)))
  {
    ConvertedRowsWithIds(rows, orderIds);
  }

  /** The server-side store. */
  class Database {
    var categories: seq<Category>
    var products: seq<Product>
    var pendingRows: seq<PendingRow>
    var mergedRows: seq<MergedRow>

    constructor (categories: seq<Category>, products: seq<Product>, pendingRows: seq<PendingRow>, mergedRows: seq<MergedRow>)
      ensures this.categories == categories && this.products == products
      ensures this.pendingRows == pendingRows && this.mergedRows == mergedRows
    {
      this.categories := categories;
      this.products := products;
      this.pendingRows := pendingRows;
      this.mergedRows := mergedRows;
    }

    /** `DELETE /api/categories/:id`: admins only; a category some product
        lists is refused with 400 and kept; otherwise every category with
        that id is removed. A failing store call gives 500. */
    method DeleteCategory(user: Option<ServerUser>, id: string, queryFails: bool, deleteFails: bool)
      returns (reply: Reply<()>)
      modifies this`categories
      ensures AdminGate(user).Refuse? ==> reply == Refused(AdminGate(user)) && categories == old(categories)
      ensures AdminGate(user).Pass? && queryFails ==> reply == Failure(500, DELETE_CATEGORY_FAILED) && categories == old(categories)
      ensures AdminGate(user).Pass? && !queryFails && CategoryInUse(products, id) ==>
        reply == Failure(400, CATEGORY_IN_USE) && categories == old(categories)
      ensures AdminGate(user).Pass? && !queryFails && !CategoryInUse(products, id) ==>
        if deleteFails then reply == Failure(500, DELETE_CATEGORY_FAILED) && categories == old(categories)
        else reply == Success(()) && categories == Filter(old(categories), (c: Category) => c.id != id)
    {
      var g := AdminGate(user);
      if g.Refuse? {
        return Refused(g);
      }
      if queryFails {
        return Failure(500, DELETE_CATEGORY_FAILED);
      }
      if CategoryInUse(products, id) {
        return Failure(400, CATEGORY_IN_USE);
      }
      if deleteFails {
        return Failure(500, DELETE_CATEGORY_FAILED);
      }
      categories := Filter(categories, (c: Category) => c.id != id);
      reply := Success(());
    }

    /** `POST /api/orders/pending`: open to anyone. A missing name or a
        missing item list gives 400; otherwise the new row (id
        `PO-<millis>-<random>`, status `pending`, total as `StoredTotal`) is
        inserted and echoed back as an order, or 500 if the insert fails. */
    method CreatePendingOrder(body: PendingBody, now: nat, suffix: string, createdAt: string, insertFails: bool)
      returns (reply: Reply<PendingOrder>)
      modifies this`pendingRows
      ensures InvalidPendingBody(body) ==> reply == Failure(400, INVALID_ORDER_DATA) && pendingRows == old(pendingRows)
      ensures !InvalidPendingBody(body) && insertFails ==>
        reply == Failure(500, CREATE_PENDING_FAILED) && pendingRows == old(pendingRows)
      ensures !InvalidPendingBody(body) && !insertFails ==>
        var order := NewPendingOrder(body.customerName.value, body.items.value,
                                     StoredTotal(body.totalPrice, body.items.value), now, suffix, createdAt);
        reply == Success(order) && pendingRows == old(pendingRows) + [PendingToRow(order)]
    {
      if InvalidPendingBody(body) {
        return Failure(400, INVALID_ORDER_DATA);
      }
      var items := body.items.value;
      var total := StoredTotal(body.totalPrice, items);
      var row := PendingToRow(NewPendingOrder(body.customerName.value, items, total, now, suffix, createdAt));
      if insertFails {
        return Failure(500, CREATE_PENDING_FAILED);
      }
      pendingRows := pendingRows + [row];
      reply := Success(PendingFromRow(row));
    }

    /** `POST /api/orders/merge`: staff or admins only; 400 without an id
        list; the requested rows are fetched (404 if there are none), merged,
        and the merged row is inserted. The requested pending rows are then
        deleted; a failed delete is only logged and the merged order is still
        the reply. Any other failing store call gives 500 and changes nothing. */
    method MergeOrders(user: Option<ServerUser>, orderIds: Option<seq<string>>, id: string, mergedAt: string,
                       fetchFails: bool, insertFails: bool, deleteFails: bool)
      returns (reply: Reply<MergedOrder>)
      modifies this`pendingRows, this`mergedRows
      ensures StaffGate(user).Refuse? ==>
        reply == Refused(StaffGate(user)) && pendingRows == old(pendingRows) && mergedRows == old(mergedRows)
      ensures StaffGate(user).Pass? && orderIds.None? ==>
        reply == Failure(400, INVALID_ORDER_IDS) && pendingRows == old(pendingRows) && mergedRows == old(mergedRows)
      ensures StaffGate(user).Pass? && orderIds.Some? ==>
        var built := BuildMergedOrder(orderIds.value, user.value.username, Converted(old(pendingRows)), id, mergedAt);
        && (fetchFails || built.Err? || insertFails ==> pendingRows == old(pendingRows) && mergedRows == old(mergedRows))
        && (fetchFails ==> reply == Failure(500, MERGE_FAILED))
        && (!fetchFails && built.Err? ==> reply == Failure(404, NO_ORDERS_FOUND))
        && (!fetchFails && built.Ok? && insertFails ==> reply == Failure(500, MERGE_FAILED))
        && (!fetchFails && built.Ok? && !insertFails ==>
              && reply == Success(built.value)
              && mergedRows == old(mergedRows) + [MergedToRow(built.value)]
              && pendingRows == if deleteFails then old(pendingRows) else RowsWithoutIds(old(pendingRows), orderIds.value))
    {
      var g := StaffGate(user);
      if g.Refuse? {
        return Refused(g);
      }
      if orderIds.None? {
        return Failure(400, INVALID_ORDER_IDS);
      }
      var ids := orderIds.value;
      if fetchFails {
        return Failure(500, MERGE_FAILED);
      }
      var found := RowsWithIds(pendingRows, ids);
      ServerMergeIsClientMerge(pendingRows, ids, user.value.username, id, mergedAt);
      if found == [] {
        return Failure(404, NO_ORDERS_FOUND);
      }
      var merged := MergeRows(ids, user.value.username, Converted(found), id, mergedAt);
      if insertFails {
        return Failure(500, MERGE_FAILED);
      }
      var inserted := MergedToRow(merged);
      mergedRows := mergedRows + [inserted];
      if !deleteFails {
        pendingRows := RowsWithoutIds(pendingRows, ids);
      }
      reply := Success(MergedFromRow(inserted));
    }
  }
}

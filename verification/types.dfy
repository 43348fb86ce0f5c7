/** The entities of the ordering app: the catalogue (categories, products,
    toppings, sizes), an order being composed, the local history, the shared
    pending and merged orders, audit entries and users. */
module Types {
  import opened Wrappers

  datatype Category = Category(id: string, name: string)

  datatype Product = Product(id: int, name: string, price: int, image: string, category: string)

  datatype Topping = Topping(id: int, name: string, price: int)

  datatype Size = Size(id: int, name: string, priceModifier: int)

  /** The drink being composed on the ordering page; `product` is `null` until
      one is chosen, and `size` may be missing on an order restored from history. */
  datatype Order = Order(
    product: Option<Product>,
    toppings: seq<Topping>,
    size: Option<Size>,
    sugar: string,
    ice: string,
    customerName: string)

  /** History entries written by the ordering page carry a millisecond stamp as
      id; entries rebuilt from merged orders carry a text id. */
  datatype HistoryId = Stamp(millis: int) | ItemId(text: string)

  /** A local history entry: an order plus its id, date, price and the pending
      order it was sent as, if any. */
  datatype HistoricOrder = HistoricOrder(
    id: HistoryId,
    date: string,
    product: Option<Product>,
    toppings: seq<Topping>,
    size: Option<Size>,
    sugar: string,
    ice: string,
    customerName: string,
    totalPrice: int,
    pendingOrderId: Option<string>)

  /** One drink of a pending order, with its computed price. */
  datatype OrderItem = OrderItem(
    product: Product,
    toppings: seq<Topping>,
    size: Option<Size>,
    sugar: string,
    ice: string,
    price: int,
    customerName: Option<string>)

  datatype OrderStatus = Pending | Merged

  /** An order one customer placed and staff have not merged yet. A total read
      back from the store may be `null`; `None` stands for it. */
  datatype PendingOrder = PendingOrder(
    id: string,
    customerName: string,
    items: seq<OrderItem>,
    totalPrice: Option<int>,
    createdAt: string,
    status: OrderStatus)

  /** Several pending orders combined by a staff member. */
  datatype MergedOrder = MergedOrder(
    id: string,
    pendingOrderIds: seq<string>,
    customerNames: seq<string>,
    totalItems: int,
    totalPrice: int,
    mergedBy: string,
    mergedAt: string,
    items: seq<OrderItem>)

  datatype AuditAction = Create | Update | Delete | OtherAction

  datatype AuditTarget = ProductTarget | ToppingTarget | SizeTarget | CategoryTarget | OrderTarget | OtherTarget

  /** `string | number | null`. */
  datatype TargetId = NoTarget | NumberId(n: int) | TextId(s: string)

  /** An admin action; `before` and `after` hold the serialised records. */
  datatype AuditEntry = AuditEntry(
    id: string,
    timestamp: string,
    user: Option<string>,
    role: Option<string>,
    action: AuditAction,
    target: AuditTarget,
    targetId: TargetId,
    before: Option<string>,
    after: Option<string>,
    note: Option<string>)

  /** A signed-in user. The role is the stored text: "admin", "staff" or "guest". */
  datatype User = User(id: Option<string>, username: string, role: string, displayName: Option<string>)

  const ADMIN: string := "admin"
  const STAFF: string := "staff"

  /** `o.totalPrice || 0`: a missing (or zero) total counts as zero. */
  function TotalOrZero(o: PendingOrder): int
  {
    o.totalPrice.GetOr(0)
  }

  function ProductId(p: Product): int
  {
    p.id
  }

  function ToppingId(t: Topping): int
  {
    t.id
  }

  function SizeId(s: Size): int
  {
    s.id
  }

  function CategoryId(c: Category): string
  {
    c.id
  }

  function HistoricId(h: HistoricOrder): HistoryId
  {
    h.id
  }

  function ToppingPrice(t: Topping): int
  {
    t.price
  }

  function OrderId(o: PendingOrder): string
  {
    o.id
  }

  function MergedId(m: MergedOrder): string
  {
    m.id
  }

  /** The price an order item was sold at. */
  function ItemPrice(item: OrderItem): int
  {
    item.price
  }
}

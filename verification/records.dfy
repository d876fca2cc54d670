/**
 * The rows the controllers read and write (users, menu_items, orders,
 * order_items, payments, notifications) and the database as one immutable value.
 * Auto-increment ids are the row's position plus one: the modelled operations
 * never delete orders, order items, payments or notifications.
 */
module Records {
  import opened Wrappers
  import opened Seqs
  import opened PaymentModel

  datatype User = User(id: nat, name: string, role: string)

  datatype MenuItem = MenuItem(name: string, price: int, stock: int)

  /** `status` is free text: the admin override stores any string. */
  datatype Order = Order(id: nat, userId: nat, orderNumber: string, totalAmount: int, status: string)

  /** A line of an order, with the unit price captured when the order was placed. */
  datatype OrderItem = OrderItem(
    orderId: nat,
    menuItemId: int,
    quantity: int,
    price: int,
    subtotal: int,
    notes: Option<string>)

  datatype Notification = Notification(id: nat, userId: nat, title: string, message: string, isRead: bool)

  datatype Db = Db(
    users: seq<User>,
    menu: map<int, MenuItem>,
    orders: seq<Order>,
    orderItems: seq<OrderItem>,
    payments: seq<Payment>,
    notifications: seq<Notification>)

  /** Auto-increment ids: every order, payment and notification sits at position id - 1. */
  ghost predicate IdsArePositions(db: Db) {
    && (forall i :: 0 <= i < |db.orders| ==> db.orders[i].id == i + 1)
    && (forall i :: 0 <= i < |db.payments| ==> db.payments[i].id == i + 1)
    && (forall i :: 0 <= i < |db.notifications| ==> db.notifications[i].id == i + 1)
  }

  /** The one-to-one design: no order has two payments. */
  ghost predicate AtMostOnePaymentPerOrder(payments: seq<Payment>) {
    forall i, j :: 0 <= i < j < |payments| ==> payments[i].orderId != payments[j].orderId
  }

  /** `Order::where('order_number', n)->first()`. */
  function OrderByNumber(orders: seq<Order>, n: string): Option<nat> {
    FirstIndex(orders, (o: Order) => o.orderNumber == n)
  }

  /** `Order::find(id)`. */
  function OrderById(orders: seq<Order>, id: int): Option<nat> {
    FirstIndex(orders, (o: Order) => o.id == id)
  }

  /** `Payment::find(id)`. */
  function PaymentById(payments: seq<Payment>, id: int): Option<nat> {
    FirstIndex(payments, (p: Payment) => p.id == id)
  }

  /** `$order->payment`: the order's `hasOne` relation, the first payment row for it. */
  function PaymentOfOrder(payments: seq<Payment>, orderId: nat): Option<nat> {
    FirstIndex(payments, (p: Payment) => p.orderId == orderId)
  }

  /** Whether any payment row belongs to the order. */
  predicate HasPayment(payments: seq<Payment>, orderId: nat) {
    PaymentOfOrder(payments, orderId).Some?
  }

  /** The price of `quantity` units at `price`: `$price * $quantity`. */
  function LineAmount(price: int, quantity: int): int {
    price * quantity
  }

  /** The sum of the subtotals of some order items. */
  function SubtotalSum(items: seq<OrderItem>): int {
    SumBy(items, (it: OrderItem) => it.subtotal)
  }

  /** An order line once its menu item, quantity and unit price are known. */
  datatype PricedLine = PricedLine(menuItemId: int, quantity: int, price: int, notes: Option<string>)

  /** Σ price × quantity over the lines. */
  function LinesTotal(lines: seq<PricedLine>): int {
    SumBy(lines, (l: PricedLine) => LineAmount(l.price, l.quantity))
  }

  /** The order_items rows for an order: one per line, the unit price captured and the subtotal computed. */
  function ItemsFor(orderId: nat, lines: seq<PricedLine>): (items: seq<OrderItem>)
    ensures |items| == |lines|
    ensures forall k :: 0 <= k < |lines| ==>
      && items[k].orderId == orderId
      && items[k].menuItemId == lines[k].menuItemId
      && items[k].quantity == lines[k].quantity
      && items[k].price == lines[k].price
      && items[k].subtotal == items[k].price * items[k].quantity
      && items[k].notes == lines[k].notes
  {
    seq(|lines|, k requires 0 <= k < |lines| =>
      OrderItem(orderId, lines[k].menuItemId, lines[k].quantity, lines[k].price,
                LineAmount(lines[k].price, lines[k].quantity), lines[k].notes))
  }

  /** The subtotals of an order's items add up to the order total. */
  lemma ItemsSumToTotal(orderId: nat, lines: seq<PricedLine>)
    ensures SubtotalSum(ItemsFor(orderId, lines)) == LinesTotal(lines)
  {
    SumByPointwise(ItemsFor(orderId, lines), (it: OrderItem) => it.subtotal,
                   lines, (l: PricedLine) => LineAmount(l.price, l.quantity));
  }
}

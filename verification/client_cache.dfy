/**
 * The client's cached lists (OrderPaymentsContext, NotificationContext) and
 * their optimistic updates: after the server accepts a change, the matching
 * records are rewritten in place with `prev.map(...)`. The HTTP call itself is
 * a parameter: `accepted` is whether it resolved (a rejected call leaves the
 * cache as it was).
 */
module ClientCache {
  import opened Wrappers
  import opened Seqs
  import opened Http
  import opened PaymentModel
  import opened Records
  import OrderController
  import PaymentController

  datatype CachedPayment = CachedPayment(id: nat, orderId: nat, status: string)

  /** An order as the list endpoint returns it, with its payment embedded (or null). */
  datatype CachedOrder = CachedOrder(id: nat, status: string, payment: Option<CachedPayment>)

  datatype Cache = Cache(orders: seq<CachedOrder>, payments: seq<CachedPayment>)

  /** `!token` on the stored bearer token: missing or empty. */
  predicate NoToken(token: Option<string>) {
    token.None? || token.value == ""
  }

  /**
   * `updateOrderStatus`: without a token nothing is sent and nothing changes;
   * once the server accepts, every cached order with the id takes the status.
   */
  function UpdateOrderStatus(c: Cache, token: Option<string>, orderId: int, status: string, accepted: bool): (r: Cache)
    ensures NoToken(token) || !accepted ==> r == c
    ensures r.payments == c.payments
    ensures |r.orders| == |c.orders|
    ensures forall i :: 0 <= i < |c.orders| ==>
      && r.orders[i].id == c.orders[i].id && r.orders[i].payment == c.orders[i].payment
      && r.orders[i].status == if !NoToken(token) && accepted && c.orders[i].id == orderId then status else c.orders[i].status
  {
    if NoToken(token) || !accepted then c
    else c.(orders := UpdateWhere(c.orders, (o: CachedOrder) => o.id == orderId, (o: CachedOrder) => o.(status := status)))
  }

  /** The cached copy of a payment's embedded in an order, rewritten when its id matches. */
  function WithPaymentStatus(o: CachedOrder, paymentId: int, status: string): CachedOrder {
    if o.payment.Some? && o.payment.value.id == paymentId then o.(payment := Some(o.payment.value.(status := status))) else o
  }

  /**
   * `updatePaymentStatus`: once the server accepts, the payment with the id
   * takes the status both in the payment list and where an order embeds it.
   * Order statuses are left alone.
   */
  function UpdatePaymentStatus(c: Cache, token: Option<string>, paymentId: int, status: string, accepted: bool): (r: Cache)
    ensures NoToken(token) || !accepted ==> r == c
    ensures |r.payments| == |c.payments| && |r.orders| == |c.orders|
    ensures forall i :: 0 <= i < |c.payments| ==>
      r.payments[i] == if !NoToken(token) && accepted && c.payments[i].id == paymentId
                       then c.payments[i].(status := status) else c.payments[i]
    ensures forall i :: 0 <= i < |c.orders| ==>
      && r.orders[i].id == c.orders[i].id && r.orders[i].status == c.orders[i].status
      && r.orders[i].payment.Some? == c.orders[i].payment.Some?
      && (c.orders[i].payment.Some? ==>
            r.orders[i].payment.value ==
              if !NoToken(token) && accepted && c.orders[i].payment.value.id == paymentId
              then c.orders[i].payment.value.(status := status) else c.orders[i].payment.value)
  {
    if NoToken(token) || !accepted then c
    else
      Cache(seq(|c.orders|, i requires 0 <= i < |c.orders| => WithPaymentStatus(c.orders[i], paymentId, status)),
            UpdateWhere(c.payments, (p: CachedPayment) => p.id == paymentId, (p: CachedPayment) => p.(status := status)))
  }

  /** Applying the same status update twice is applying it once. */
  lemma UpdatesIdempotent(c: Cache, token: Option<string>, id: int, status: string, accepted: bool)
    ensures var r := UpdateOrderStatus(c, token, id, status, accepted);
      UpdateOrderStatus(r, token, id, status, accepted) == r
    ensures var r := UpdatePaymentStatus(c, token, id, status, accepted);
      UpdatePaymentStatus(r, token, id, status, accepted) == r
  {
  }

  // ---------------------------------------------------------------------------
  // The cache against the server

  /** Every cached order shows the status the server holds for its id. */
  ghost predicate OrdersMirror(cached: seq<CachedOrder>, orders: seq<Order>) {
    forall i :: 0 <= i < |cached| ==>
      OrderById(orders, cached[i].id).Some? && orders[OrderById(orders, cached[i].id).value].status == cached[i].status
  }

  /**
   * Sending an order status to the server and applying the client update
   * with the server's verdict keeps the cache a mirror of the server.
   */
  lemma OrderStatusKeepsMirror(c: Cache, db: Db, token: string, orderId: int, status: string)
    requires token != ""
    requires OrdersMirror(c.orders, db.orders)
    ensures var r := OrderController.UpdateStatus(db, orderId, Some(status));
      OrdersMirror(UpdateOrderStatus(c, Some(token), orderId, status, r.code == Ok).orders, r.state.orders)
  {
    var r := OrderController.UpdateStatus(db, orderId, Some(status));
    if r.code == Ok {
      var oi := OrderById(db.orders, orderId).value;
      var c1 := UpdateOrderStatus(c, Some(token), orderId, status, true);
      forall i | 0 <= i < |c1.orders|
        ensures OrderById(r.state.orders, c1.orders[i].id).Some?
        ensures r.state.orders[OrderById(r.state.orders, c1.orders[i].id).value].status == c1.orders[i].status
      {
        var id := c1.orders[i].id;
        FirstIndexAgree(r.state.orders, (o: Order) => o.id == id, db.orders, (o: Order) => o.id == id);
      }
    }
  }

  /** Every cached payment shows the status the server holds for its id. */
  ghost predicate PaymentsMirror(cached: seq<CachedPayment>, payments: seq<Payment>) {
    forall i :: 0 <= i < |cached| ==>
      PaymentById(payments, cached[i].id).Some?
      && StatusName(payments[PaymentById(payments, cached[i].id).value].status) == cached[i].status
  }

  /** The payment list stays a mirror of the server through an admin's payment status change. */
  lemma PaymentStatusKeepsMirror(c: Cache, db: Db, token: string, paymentId: int, status: string, now: int)
    requires token != ""
    requires PaymentsMirror(c.payments, db.payments)
    ensures var r := PaymentController.UpdateStatus(db, paymentId, Some(status), now);
      PaymentsMirror(UpdatePaymentStatus(c, Some(token), paymentId, status, r.code == Ok).payments, r.state.payments)
  {
    var r := PaymentController.UpdateStatus(db, paymentId, Some(status), now);
    if r.code == Ok {
      var c1 := UpdatePaymentStatus(c, Some(token), paymentId, status, true);
      ParseStatusName(ParseStatus(status).value);
      forall i | 0 <= i < |c1.payments|
        ensures PaymentById(r.state.payments, c1.payments[i].id).Some?
        ensures StatusName(r.state.payments[PaymentById(r.state.payments, c1.payments[i].id).value].status) == c1.payments[i].status
      {
        var id := c1.payments[i].id;
        FirstIndexAgree(r.state.payments, (p: Payment) => p.id == id, db.payments, (p: Payment) => p.id == id);
      }
    }
  }

  /**
   * Marking a payment paid also moves its order to "processing" on the
   * server, but the cached order keeps its old status until the next fetch.
   */
  lemma PaidLeavesCachedOrderBehind(c: Cache, db: Db, token: string, paymentId: int, now: int, i: nat)
    requires token != ""
    requires PaymentController.UpdateStatus(db, paymentId, Some("paid"), now).code == Ok
    requires i < |c.orders| && c.orders[i].status != "processing"
    ensures var r := PaymentController.UpdateStatus(db, paymentId, Some("paid"), now);
      var p := db.payments[PaymentById(db.payments, paymentId).value];
      && r.state.orders[OrderById(db.orders, p.orderId).value].status == "processing"
      && UpdatePaymentStatus(c, Some(token), paymentId, "paid", true).orders[i].status == c.orders[i].status
  {
  }

  // ---------------------------------------------------------------------------
  // Notifications

  /** `markAsRead`: once the server accepts, the notification with the id is read; nothing else changes. */
  function MarkAsRead(ns: seq<Notification>, id: int, accepted: bool): (r: seq<Notification>)
    ensures |r| == |ns|
    ensures forall i :: 0 <= i < |ns| ==>
      r[i] == if accepted && ns[i].id == id then ns[i].(isRead := true) else ns[i]
    ensures forall i :: 0 <= i < |ns| ==> r[i].isRead == (ns[i].isRead || (accepted && ns[i].id == id))
  {
    if !accepted then ns
    else UpdateWhere(ns, (n: Notification) => n.id == id, (n: Notification) => n.(isRead := true))
  }

  /** Marking twice is marking once, and marks commute. */
  lemma MarkAsReadIdempotentAndCommutes(ns: seq<Notification>, a: int, b: int)
    ensures MarkAsRead(MarkAsRead(ns, a, true), a, true) == MarkAsRead(ns, a, true)
    ensures MarkAsRead(MarkAsRead(ns, a, true), b, true) == MarkAsRead(MarkAsRead(ns, b, true), a, true)
  {
  }

  /** The number of unread notifications. */
  function Unread(ns: seq<Notification>): int {
    SumBy(ns, (n: Notification) => if n.isRead then 0 else 1)
  }

  /** Marking never raises the unread count. */
  lemma {:induction false} MarkAsReadLowersUnread(ns: seq<Notification>, id: int, accepted: bool)
    ensures Unread(MarkAsRead(ns, id, accepted)) <= Unread(ns)
  {
    if |ns| > 0 {
      var init := ns[..|ns| - 1];
      MarkAsReadLowersUnread(init, id, accepted);
      assert MarkAsRead(ns, id, accepted)[..|ns| - 1] == MarkAsRead(init, id, accepted);
    }
  }
}

/**
 * PaymentController: manual payment creation, the admin status override, and
 * the two reconciliation entry points that map the gateway's
 * `transaction_status` onto the local (payment status, order status) pair —
 * the polling `updatePaymentStatus` and the webhook `handleWebhook`.
 */
module PaymentController {
  import opened Wrappers
  import opened Strings
  import opened Seqs
  import opened Http
  import opened PaymentModel
  import opened Records
  import opened OrderNumbers

  // ---------------------------------------------------------------------------
  // store: manual creation with a duplicate guard

  /** The methods the `in:` rule of `store` admits. */
  const AllowedMethods: set<string> :=
    {"cash", "transfer", "ewallet", "card", "qris", "gopay", "bank_transfer", "shopeepay", "credit_card"}

  datatype StoreRequest = StoreRequest(orderId: Option<int>, paymentMethod: Option<string>, transactionId: Option<string>)

  /** The request passes `store`'s validation (`required|exists:orders,id`, `required|in:...`). */
  predicate StoreRequestValid(db: Db, req: StoreRequest) {
    && req.orderId.Some?
    && OrderById(db.orders, req.orderId.value).Some?
    && Present(req.paymentMethod)
    && req.paymentMethod.value in AllowedMethods
  }

  /**
   * POST /payments. An order that already has a payment is refused with 400;
   * otherwise one pending payment for the order's total is appended.
   */
  function Store(db: Db, req: StoreRequest): (r: Reply<Db>)
    ensures r.code in {Created, BadRequest, Unprocessable}
    ensures r.code != Created ==> r.state == db
    ensures r.code == Unprocessable <==> !StoreRequestValid(db, req)
    ensures StoreRequestValid(db, req) ==>
      var o := db.orders[OrderById(db.orders, req.orderId.value).value];
      && (r.code == BadRequest <==> HasPayment(db.payments, o.id))
      && (r.code == Created ==>
            && r.state == db.(payments := r.state.payments)
            && |r.state.payments| == |db.payments| + 1
            && r.state.payments[..|db.payments|] == db.payments
            && var p := r.state.payments[|db.payments|];
               && p.id == |db.payments| + 1
               && p.orderId == o.id
               && p.amount == o.totalAmount
               && IsPending(p)
               && p.paymentMethod == req.paymentMethod
               && p.transactionId == req.transactionId
               && p.snapToken.None? && p.paidAt.None?)
  {
    if !StoreRequestValid(db, req) then Reply(Unprocessable, db)
    else
      var o := db.orders[OrderById(db.orders, req.orderId.value).value];
      if HasPayment(db.payments, o.id) then Reply(BadRequest, db)
      else
        var p := Payment(|db.payments| + 1, o.id, o.totalAmount, req.paymentMethod, Pending, None, req.transactionId, None);
        Reply(Created, db.(payments := db.payments + [p]))
  }

  /** The duplicate guard keeps orders and payments one-to-one. */
  lemma StoreKeepsOnePaymentPerOrder(db: Db, req: StoreRequest)
    requires AtMostOnePaymentPerOrder(db.payments)
    ensures AtMostOnePaymentPerOrder(Store(db, req).state.payments)
  {
    var r := Store(db, req);
    if r.code == Created {
      var o := db.orders[OrderById(db.orders, req.orderId.value).value];
      assert PaymentOfOrder(db.payments, o.id).None?;
      assert forall j :: 0 <= j < |db.payments| ==> r.state.payments[j] == db.payments[j];
    }
  }

  // ---------------------------------------------------------------------------
  // updateStatus: the admin override

  /**
   * PATCH /payments/{id}/status. Only "pending", "paid" and "failed" are
   * accepted. "paid" stamps `paid_at` and moves the payment's order to
   * "processing"; the other two leave every order alone.
   */
  function UpdateStatus(db: Db, paymentId: int, status: Option<string>, now: int): (r: Reply<Db>)
    ensures r.code in {Ok, NotFound, Unprocessable, ServerError}
    ensures r.code != Ok ==> r.state == db
    ensures r.code == Unprocessable <==> status.None? || ParseStatus(status.value).None?
    ensures r.code == NotFound <==> r.code != Unprocessable && PaymentById(db.payments, paymentId).None?
    ensures r.code == Ok ==>
      var pi := PaymentById(db.payments, paymentId).value;
      var p := db.payments[pi];
      var st := ParseStatus(status.value).value;
      && r.state.users == db.users && r.state.menu == db.menu
      && r.state.orderItems == db.orderItems && r.state.notifications == db.notifications
      && |r.state.payments| == |db.payments|
      && r.state.payments == db.payments[pi := r.state.payments[pi]]
      && r.state.payments[pi].status == st
      && r.state.payments[pi].paidAt == (if st == Paid then Some(now) else p.paidAt)
      && r.state.payments[pi] == p.(status := st, paidAt := r.state.payments[pi].paidAt)
      && (st != Paid ==> r.state.orders == db.orders)
      && (st == Paid ==>
            OrderById(db.orders, p.orderId).Some? &&
            var oi := OrderById(db.orders, p.orderId).value;
            r.state.orders == db.orders[oi := db.orders[oi].(status := "processing")])
    ensures r.code == ServerError <==>
      && status.Some? && ParseStatus(status.value) == Some(Paid)
      && PaymentById(db.payments, paymentId).Some?
      && OrderById(db.orders, db.payments[PaymentById(db.payments, paymentId).value].orderId).None?
  {
    if status.None? || ParseStatus(status.value).None? then Reply(Unprocessable, db)
    else
      var st := ParseStatus(status.value).value;
      match PaymentById(db.payments, paymentId)
      case None => Reply(NotFound, db)
      case Some(pi) =>
        var p := db.payments[pi];
        if st == Paid then
          match OrderById(db.orders, p.orderId)
          // `$payment->order->update(...)` on a missing order throws before any write.
          case None => Reply(ServerError, db)
          case Some(oi) =>
            var orders := db.orders[oi := db.orders[oi].(status := "processing")];
            Reply(Ok, db.(orders := orders, payments := db.payments[pi := p.(status := Paid, paidAt := Some(now))]))
        else
          Reply(Ok, db.(payments := db.payments[pi := p.(status := st)]))
  }

  // ---------------------------------------------------------------------------
  // Reconciliation with the gateway

  /** What a gateway `transaction_status` does to the local pair. */
  datatype Bucket = Settle | StayPending | Fail | Ignore

  /** The statuses `in_array(..., ['deny', 'expire', 'cancel'])` accepts. */
  const FailureStatuses: seq<string> := ["deny", "expire", "cancel"]

  /** The polling path's classification. */
  function PollingBucket(t: string): (b: Bucket)
    ensures b == Settle <==> t == "settlement"
    ensures b == StayPending <==> t == "pending"
    ensures b == Fail <==> t in FailureStatuses
  {
    if t == "settlement" then Settle
    else if t == "pending" then StayPending
    else if t in FailureStatuses then Fail
    else Ignore
  }

  /** The webhook's classification: additionally, "capture" settles when the fraud check says "accept". */
  function WebhookBucket(t: Option<string>, fraud: Option<string>): Bucket {
    if t == Some("capture") && fraud == Some("accept") then Settle
    else if t == Some("settlement") then Settle
    else if t == Some("pending") then StayPending
    else if t.Some? && t.value in FailureStatuses then Fail
    else Ignore
  }

  /**
   * The two entry points classify alike except on "capture", which only the
   * webhook honours and only with an accepted fraud check; a missing status
   * changes nothing.
   */
  lemma WebhookRefinesPolling(t: string, fraud: Option<string>)
    ensures t != "capture" ==> WebhookBucket(Some(t), fraud) == PollingBucket(t)
    ensures WebhookBucket(Some("capture"), fraud) == if fraud == Some("accept") then Settle else Ignore
    ensures PollingBucket("capture") == Ignore
    ensures WebhookBucket(None, fraud) == Ignore
  {
  }

  /** How each path writes `transaction_id`: polling keeps the stored id when none is supplied, the webhook overwrites. */
  datatype TxPolicy = KeepWhenAbsent | Overwrite

  function NextTransactionId(policy: TxPolicy, supplied: Option<string>, current: Option<string>): Option<string> {
    match policy
    case KeepWhenAbsent => supplied.OrElse(current)
    case Overwrite => supplied
  }

  /** The payment columns each bucket writes. */
  function PaymentAfter(b: Bucket, p: Payment, paymentType: Option<string>, tx: Option<string>, now: int): Payment {
    match b
    case Settle => p.(status := Paid, paymentMethod := paymentType, transactionId := tx, paidAt := Some(now))
    case StayPending => p.(status := Pending, transactionId := tx)
    case Fail => p.(status := Failed, transactionId := tx)
    case Ignore => p
  }

  /** The order status each bucket writes. */
  function OrderStatusAfter(b: Bucket, status: string): string {
    match b
    case Settle => "processing"
    case StayPending => "pending"
    case Fail => "failed"
    case Ignore => status
  }

  /** The row "create payment if missing" inserts for an order: pending, for the order total, `payment_type ?? 'midtrans'`. */
  function MissingPayment(db: Db, o: Order, paymentType: Option<string>, supplied: Option<string>): Payment {
    Payment(|db.payments| + 1, o.id, o.totalAmount, Some(paymentType.GetOr("midtrans")), Pending, None, supplied, None)
  }

  /** The payment row a reconciliation starts from: the order's own payment, or the one created for it. */
  function BasePayment(db: Db, o: Order, paymentType: Option<string>, supplied: Option<string>): Payment {
    match PaymentOfOrder(db.payments, o.id)
    case Some(pi) => db.payments[pi]
    case None => MissingPayment(db, o, paymentType, supplied)
  }

  /** Both paths first create a pending payment for the order total when the order has none. */
  function EnsurePayment(db: Db, o: Order, paymentType: Option<string>, supplied: Option<string>): (r: Db)
    ensures HasPayment(r.payments, o.id)
    ensures HasPayment(db.payments, o.id) ==> r == db
    ensures !HasPayment(db.payments, o.id) ==>
      && r == db.(payments := db.payments + [MissingPayment(db, o, paymentType, supplied)])
      && PaymentOfOrder(r.payments, o.id) == Some(|db.payments|)
    ensures r.payments[PaymentOfOrder(r.payments, o.id).value] == BasePayment(db, o, paymentType, supplied)
  {
    if HasPayment(db.payments, o.id) then db
    else
      var ps := db.payments + [MissingPayment(db, o, paymentType, supplied)];
      assert ps[|db.payments|].orderId == o.id;
      FirstIndexSomeIff(ps, (p: Payment) => p.orderId == o.id, |db.payments|);
      db.(payments := ps)
  }

  /** The (payment status, order status) pair the mapping table prescribes for a bucket. */
  ghost predicate StatusesFollow(b: Bucket, base: Payment, after: Payment, st0: string, st: string) {
    match b
    case Settle => IsPaid(after) && st == "processing"
    case StayPending => IsPending(after) && st == "pending"
    case Fail => IsFailed(after) && st == "failed"
    case Ignore => after.status == base.status && st == st0
  }

  /**
   * The state a reconciliation leaves: only the order's status and its payment
   * change, a payment is created exactly when the order had none, the statuses
   * follow the mapping table, settlement alone writes `payment_method` and
   * `paid_at`, `transaction_id` follows the path's policy, and every other
   * column of the payment keeps the value it started from.
   */
  ghost predicate Reconciled(db: Db, r: Db, oi: nat, b: Bucket, paymentType: Option<string>,
                             supplied: Option<string>, policy: TxPolicy, now: int)
    requires oi < |db.orders|
  {
    var o := db.orders[oi];
    var before := PaymentOfOrder(db.payments, o.id);
    var base := BasePayment(db, o, paymentType, supplied);
    && r.users == db.users && r.menu == db.menu
    && r.orderItems == db.orderItems && r.notifications == db.notifications
    && |r.orders| == |db.orders|
    && (forall j :: 0 <= j < |db.orders| && j != oi ==> r.orders[j] == db.orders[j])
    && r.orders[oi] == o.(status := r.orders[oi].status)
    && |r.payments| == |db.payments| + (if before.Some? then 0 else 1)
    && PaymentOfOrder(r.payments, o.id).Some?
    && var pi := PaymentOfOrder(r.payments, o.id).value;
       var after := r.payments[pi];
       && (before.Some? ==> pi == before.value)
       && (before.None? ==> pi == |db.payments|)
       && (forall j :: 0 <= j < |db.payments| && j != pi ==> r.payments[j] == db.payments[j])
       && after == base.(status := after.status, paymentMethod := after.paymentMethod,
                         transactionId := after.transactionId, paidAt := after.paidAt)
       && StatusesFollow(b, base, after, o.status, r.orders[oi].status)
       && after.paymentMethod == (if b == Settle then paymentType else base.paymentMethod)
       && after.paidAt == (if b == Settle then Some(now) else base.paidAt)
       && after.transactionId ==
            if b == Ignore then base.transactionId
            else if policy == Overwrite || before.None? then supplied
            else supplied.OrElse(base.transactionId)
  }

  /** Creates the payment if missing, then applies the bucket to the payment and the order together. */
  function Reconcile(db: Db, oi: nat, b: Bucket, paymentType: Option<string>, supplied: Option<string>,
                     policy: TxPolicy, now: int): (r: Db)
    requires oi < |db.orders|
    ensures Reconciled(db, r, oi, b, paymentType, supplied, policy, now)
  {
    var o := db.orders[oi];
    var db1 := EnsurePayment(db, o, paymentType, supplied);
    var pi := PaymentOfOrder(db1.payments, o.id).value;
    var p := db1.payments[pi];
    var p' := PaymentAfter(b, p, paymentType, NextTransactionId(policy, supplied, p.transactionId), now);
    var payments := db1.payments[pi := p'];
    FirstIndexAgree(db1.payments, (q: Payment) => q.orderId == o.id, payments, (q: Payment) => q.orderId == o.id);
    db1.(payments := payments, orders := db1.orders[oi := o.(status := OrderStatusAfter(b, o.status))])
  }

  /**
   * Read through the model's `isPaid`, `isPending` and `isFailed`: after a
   * reconciliation the order's payment is paid exactly when the status settled
   * it, failed exactly when it failed, pending exactly when it stayed pending;
   * an ignored status leaves the payment's status as it was.
   */
  lemma ReconcileSetsStatus(db: Db, oi: nat, b: Bucket, paymentType: Option<string>, supplied: Option<string>,
                            policy: TxPolicy, now: int)
    requires oi < |db.orders|
    ensures var r := Reconcile(db, oi, b, paymentType, supplied, policy, now);
      var p := r.payments[PaymentOfOrder(r.payments, db.orders[oi].id).value];
      && (b != Ignore ==> (IsPaid(p) <==> b == Settle) && (IsPending(p) <==> b == StayPending) && (IsFailed(p) <==> b == Fail))
      && (b == Ignore ==> p.status == BasePayment(db, db.orders[oi], paymentType, supplied).status)
  {
  }

  // ---------------------------------------------------------------------------
  // updatePaymentStatus: the polling entry point

  /**
   * The validated request. `payment_type` is nullable, so it may be absent
   * (`None`), present but null (`Some(None)`) or a string.
   */
  datatype PollRequest = PollRequest(
    orderId: Option<string>,
    transactionStatus: Option<string>,
    paymentType: Option<Option<string>>,
    transactionId: Option<string>)

  /** `$validated['payment_type'] ?? ...`: an absent key reads as null. */
  function PaymentTypeOrNull(req: PollRequest): Option<string> {
    req.paymentType.GetOr(None)
  }

  /**
   * `updatePaymentStatus`, reached by the public POST /midtrans/webhook and by
   * POST /payment/update-status behind `auth:sanctum`. Looks the order up by the whole `order_id`; 404 and no write when
   * no order has that number. A settlement read without `payment_type` fails
   * on the undefined array key after the missing payment, if any, has been
   * inserted: there is no transaction, so that insert stays. A payment it
   * creates is the one it then updates; `UpdatePaymentStatusAsWritten` is the
   * code's re-read of the relation cached as null.
   */
  function UpdatePaymentStatus(db: Db, req: PollRequest, now: int): (r: Reply<Db>)
    ensures r.code in {Ok, NotFound, Unprocessable, ServerError}
    ensures r.code in {NotFound, Unprocessable} ==> r.state == db
    ensures r.code == Unprocessable <==> !Present(req.orderId) || !Present(req.transactionStatus)
    ensures r.code == NotFound <==>
      r.code != Unprocessable && OrderByNumber(db.orders, req.orderId.value).None?
    ensures r.code == ServerError <==>
      && r.code != Unprocessable && r.code != NotFound
      && PollingBucket(req.transactionStatus.value) == Settle && req.paymentType.None?
    ensures r.code == ServerError ==>
      r.state == EnsurePayment(db, db.orders[OrderByNumber(db.orders, req.orderId.value).value], None, req.transactionId)
    ensures r.code == Ok ==>
      Reconciled(db, r.state, OrderByNumber(db.orders, req.orderId.value).value,
                 PollingBucket(req.transactionStatus.value), PaymentTypeOrNull(req), req.transactionId,
                 KeepWhenAbsent, now)
  {
    if !Present(req.orderId) || !Present(req.transactionStatus) then Reply(Unprocessable, db)
    else match OrderByNumber(db.orders, req.orderId.value)
      case None => Reply(NotFound, db)
      case Some(oi) =>
        var b := PollingBucket(req.transactionStatus.value);
        if b == Settle && req.paymentType.None? then
          Reply(ServerError, EnsurePayment(db, db.orders[oi], None, req.transactionId))
        else
          Reply(Ok, Reconcile(db, oi, b, PaymentTypeOrNull(req), req.transactionId, KeepWhenAbsent, now))
  }

  // ---------------------------------------------------------------------------
  // handleWebhook: the notification entry point

  datatype WebhookPayload = WebhookPayload(
    orderId: Option<string>,
    transactionStatus: Option<string>,
    fraudStatus: Option<string>,
    paymentType: Option<string>,
    transactionId: Option<string>)

  /** `explode('-', $orderId)[0]`: the lookup key the webhook derives from the gateway's order id. */
  function WebhookKey(orderId: string): (k: string)
    ensures k <= orderId
    ensures '-' !in k
    ensures |k| == |orderId| || orderId[|k|] == '-'
  {
    Before(orderId, '-')
  }

  /** Looks the order up by `key` and reconciles it as the webhook does; 404 when no order has that number. */
  function ReconcileByKey(db: Db, key: string, payload: WebhookPayload, now: int): (r: Reply<Db>)
    ensures r.code in {Ok, NotFound}
    ensures r.code == NotFound <==> OrderByNumber(db.orders, key).None?
    ensures r.code == NotFound ==> r.state == db
    ensures r.code == Ok ==>
      Reconciled(db, r.state, OrderByNumber(db.orders, key).value,
                 WebhookBucket(payload.transactionStatus, payload.fraudStatus), payload.paymentType,
                 payload.transactionId, Overwrite, now)
  {
    match OrderByNumber(db.orders, key)
    case None => Reply(NotFound, db)
    case Some(oi) =>
      Reply(Ok, Reconcile(db, oi, WebhookBucket(payload.transactionStatus, payload.fraudStatus),
                          payload.paymentType, payload.transactionId, Overwrite, now))
  }

  /**
   * `handleWebhook`. A falsy `order_id` is refused with 400; the order is
   * looked up by `WebhookKey`; the rest is the shared reconciliation with
   * `transaction_id` overwritten by the supplied value, updating the payment
   * it has just created where the code re-reads a relation cached as null.
   */
  function HandleWebhook(db: Db, payload: WebhookPayload, now: int): (r: Reply<Db>)
    ensures r.code in {Ok, BadRequest, NotFound}
    ensures r.code != Ok ==> r.state == db
    ensures r.code == BadRequest <==> PhpFalsy(payload.orderId)
    ensures r.code == NotFound <==>
      !PhpFalsy(payload.orderId) && OrderByNumber(db.orders, WebhookKey(payload.orderId.value)).None?
    ensures r.code == Ok ==>
      Reconciled(db, r.state, OrderByNumber(db.orders, WebhookKey(payload.orderId.value)).value,
                 WebhookBucket(payload.transactionStatus, payload.fraudStatus), payload.paymentType,
                 payload.transactionId, Overwrite, now)
  {
    if PhpFalsy(payload.orderId) then Reply(BadRequest, db)
    else ReconcileByKey(db, WebhookKey(payload.orderId.value), payload, now)
  }

  // ---------------------------------------------------------------------------
  // Properties of reconciliation

  /** Reconciliation changes no order number, so a lookup by number finds the same order afterwards. */
  lemma ReconciledKeepsNumbers(db: Db, r: Db, oi: nat, b: Bucket, paymentType: Option<string>,
                               supplied: Option<string>, policy: TxPolicy, now: int, n: string)
    requires oi < |db.orders|
    requires Reconciled(db, r, oi, b, paymentType, supplied, policy, now)
    ensures OrderByNumber(r.orders, n) == OrderByNumber(db.orders, n)
  {
    FirstIndexAgree(r.orders, (o: Order) => o.orderNumber == n, db.orders, (o: Order) => o.orderNumber == n);
  }

  /**
   * Applying a bucket a second time, later, gives what applying it once at that
   * later time gives; outside settlement, which stamps `paid_at`, the second
   * application changes nothing at all.
   */
  lemma ReconcileIdempotent(db: Db, oi: nat, b: Bucket, paymentType: Option<string>, supplied: Option<string>,
                            policy: TxPolicy, now: int, later: int)
    requires oi < |db.orders|
    ensures var db1 := Reconcile(db, oi, b, paymentType, supplied, policy, now);
      && Reconcile(db1, oi, b, paymentType, supplied, policy, later) == Reconcile(db, oi, b, paymentType, supplied, policy, later)
      && (b != Settle ==> Reconcile(db1, oi, b, paymentType, supplied, policy, later) == db1)
  {
    var db1 := Reconcile(db, oi, b, paymentType, supplied, policy, now);
    var o := db.orders[oi];
    var o1 := db1.orders[oi];
    assert o1.id == o.id;
    var e := EnsurePayment(db, o, paymentType, supplied);
    var pi := PaymentOfOrder(e.payments, o.id).value;
    assert PaymentOfOrder(db1.payments, o.id).value == pi;
    var p0 := e.payments[pi];
    var p1 := db1.payments[pi];
    assert p1 == PaymentAfter(b, p0, paymentType, NextTransactionId(policy, supplied, p0.transactionId), now);
    assert EnsurePayment(db1, o1, paymentType, supplied) == db1;
    var p2 := PaymentAfter(b, p1, paymentType, NextTransactionId(policy, supplied, p1.transactionId), later);
    assert p2 == PaymentAfter(b, p0, paymentType, NextTransactionId(policy, supplied, p0.transactionId), later);
    assert db1.payments[pi := p2] == e.payments[pi := p2];
    assert db1.orders[oi := o1.(status := OrderStatusAfter(b, o1.status))] == e.orders[oi := o.(status := OrderStatusAfter(b, o.status))];
    if b != Settle {
      assert p2 == p1;
      assert db1.payments[pi := p2] == db1.payments;
    }
  }

  /**
   * Repeating a polled status update, later, leaves the state a single update
   * at that later time leaves; outside settlement it leaves the first one's
   * state and reply.
   */
  lemma PollingIdempotent(db: Db, req: PollRequest, now: int, later: int)
    ensures var r1 := UpdatePaymentStatus(db, req, now);
      && UpdatePaymentStatus(r1.state, req, later) == UpdatePaymentStatus(db, req, later)
      && (r1.code != Ok || PollingBucket(req.transactionStatus.value) != Settle ==>
            UpdatePaymentStatus(r1.state, req, later) == r1)
  {
    var r1 := UpdatePaymentStatus(db, req, now);
    if r1.code == Ok || r1.code == ServerError {
      var oi := OrderByNumber(db.orders, req.orderId.value).value;
      var b := PollingBucket(req.transactionStatus.value);
      if r1.code == Ok {
        ReconciledKeepsNumbers(db, r1.state, oi, b, PaymentTypeOrNull(req), req.transactionId, KeepWhenAbsent, now, req.orderId.value);
        ReconcileIdempotent(db, oi, b, PaymentTypeOrNull(req), req.transactionId, KeepWhenAbsent, now, later);
      } else {
        assert r1.state.orders == db.orders;
      }
    }
  }

  /**
   * Repeating a webhook notification, later, leaves the state a single
   * delivery at that later time leaves; outside settlement it leaves the first
   * delivery's state and reply.
   */
  lemma WebhookIdempotent(db: Db, payload: WebhookPayload, now: int, later: int)
    ensures var r1 := HandleWebhook(db, payload, now);
      && HandleWebhook(r1.state, payload, later) == HandleWebhook(db, payload, later)
      && (r1.code != Ok || WebhookBucket(payload.transactionStatus, payload.fraudStatus) != Settle ==>
            HandleWebhook(r1.state, payload, later) == r1)
  {
    var r1 := HandleWebhook(db, payload, now);
    if r1.code == Ok {
      var key := WebhookKey(payload.orderId.value);
      var oi := OrderByNumber(db.orders, key).value;
      var b := WebhookBucket(payload.transactionStatus, payload.fraudStatus);
      ReconciledKeepsNumbers(db, r1.state, oi, b, payload.paymentType, payload.transactionId, Overwrite, now, key);
      ReconcileIdempotent(db, oi, b, payload.paymentType, payload.transactionId, Overwrite, now, later);
    }
  }

  /**
   * There is no ordering guard: a "pending" notification that arrives after a
   * "settlement" turns a paid, processing order back into a pending one.
   */
  lemma LatePendingRevertsSettlement(db: Db, req: PollRequest, now: int, later: int)
    requires UpdatePaymentStatus(db, req, now).code == Ok
    requires req.transactionStatus == Some("settlement")
    ensures var r1 := UpdatePaymentStatus(db, req, now).state;
      var r2 := UpdatePaymentStatus(r1, req.(transactionStatus := Some("pending")), later);
      var oi := OrderByNumber(db.orders, req.orderId.value).value;
      var pi := PaymentOfOrder(r2.state.payments, db.orders[oi].id).value;
      && r1.orders[oi].status == "processing"
      && r2.code == Ok
      && r2.state.orders[oi].status == "pending"
      && IsPending(r2.state.payments[pi])
  {
    var r1 := UpdatePaymentStatus(db, req, now).state;
    var oi := OrderByNumber(db.orders, req.orderId.value).value;
    ReconciledKeepsNumbers(db, r1, oi, Settle, PaymentTypeOrNull(req), req.transactionId, KeepWhenAbsent, now, req.orderId.value);
    assert r1.orders[oi].id == db.orders[oi].id;
    assert "pending"[0] !in TrimChars;
  }

  /**
   * A "settlement" request that carries no `payment_type` key: the reply is
   * 500, yet the payment the poll created for an order that had none is
   * already stored.
   */
  lemma SettlementWithoutPaymentTypeFails(db: Db, orderId: string, transactionId: Option<string>, now: int)
    requires OrderByNumber(db.orders, orderId).Some?
    requires !Blank(orderId)
    ensures var r := UpdatePaymentStatus(db, PollRequest(Some(orderId), Some("settlement"), None, transactionId), now);
      var o := db.orders[OrderByNumber(db.orders, orderId).value];
      && r.code == ServerError
      && r.state.orders == db.orders
      && (!HasPayment(db.payments, o.id) ==>
            r.state.payments == db.payments + [MissingPayment(db, o, None, transactionId)])
  {
    assert "settlement"[0] !in TrimChars;
  }

  // ---------------------------------------------------------------------------
  // The re-read of the cached relation

  /**
   * `updatePaymentStatus` exactly as written. The `payment` relation read by
   * the "create if missing" check stays cached as null after `Payment::create`,
   * so for an order that had no payment every status that writes the payment
   * calls `update` on null: 500, with the created row kept. An ignored status
   * writes nothing and answers 200. With a payment in place it is
   * `UpdatePaymentStatus`.
   */
  function UpdatePaymentStatusAsWritten(db: Db, req: PollRequest, now: int): (r: Reply<Db>)
    ensures r.code in {Ok, NotFound, Unprocessable, ServerError}
    ensures r.code in {NotFound, Unprocessable} ==> r.state == db
    ensures r.code == Unprocessable <==> !Present(req.orderId) || !Present(req.transactionStatus)
    ensures r.code == NotFound <==>
      r.code != Unprocessable && OrderByNumber(db.orders, req.orderId.value).None?
    ensures r.code == ServerError <==>
      && r.code != Unprocessable && r.code != NotFound
      && var o := db.orders[OrderByNumber(db.orders, req.orderId.value).value];
         var b := PollingBucket(req.transactionStatus.value);
         (b == Settle && req.paymentType.None?) || (b != Ignore && !HasPayment(db.payments, o.id))
    ensures r.code == ServerError ==>
      r.state == EnsurePayment(db, db.orders[OrderByNumber(db.orders, req.orderId.value).value],
                               PaymentTypeOrNull(req), req.transactionId)
    ensures r.code == Ok ==>
      Reconciled(db, r.state, OrderByNumber(db.orders, req.orderId.value).value,
                 PollingBucket(req.transactionStatus.value), PaymentTypeOrNull(req), req.transactionId,
                 KeepWhenAbsent, now)
  {
    if !Present(req.orderId) || !Present(req.transactionStatus) then Reply(Unprocessable, db)
    else match OrderByNumber(db.orders, req.orderId.value)
      case None => Reply(NotFound, db)
      case Some(oi) =>
        var o := db.orders[oi];
        var b := PollingBucket(req.transactionStatus.value);
        if (b == Settle && req.paymentType.None?) || (b != Ignore && !HasPayment(db.payments, o.id)) then
          Reply(ServerError, EnsurePayment(db, o, PaymentTypeOrNull(req), req.transactionId))
        else
          Reply(Ok, Reconcile(db, oi, b, PaymentTypeOrNull(req), req.transactionId, KeepWhenAbsent, now))
  }

  /**
   * The as-written poll and `UpdatePaymentStatus`, which updates the row it
   * has just created, differ only on an order without a payment: there the
   * as-written poll answers 500 for every status that writes the payment,
   * after inserting it, while `UpdatePaymentStatus` reconciles the new row.
   */
  lemma CachedRelationAgrees(db: Db, req: PollRequest, now: int)
    ensures var a, c := UpdatePaymentStatusAsWritten(db, req, now), UpdatePaymentStatus(db, req, now);
      && (c.code != Ok ==> a == c)
      && (c.code == Ok ==>
            var o := db.orders[OrderByNumber(db.orders, req.orderId.value).value];
            if HasPayment(db.payments, o.id) || PollingBucket(req.transactionStatus.value) == Ignore then a == c
            else a.code == ServerError && a.state.payments == db.payments + [MissingPayment(db, o, PaymentTypeOrNull(req), req.transactionId)]
                 && a.state.orders == db.orders)
  {
  }

  /**
   * The first "pending" poll for an order that has no payment answers 500 as
   * written, leaving the order's status alone and a pending payment behind.
   */
  lemma FirstPollWithoutPaymentFails(db: Db, oi: nat, transactionId: Option<string>, now: int)
    requires oi < |db.orders|
    requires OrderByNumber(db.orders, db.orders[oi].orderNumber) == Some(oi)
    requires !Blank(db.orders[oi].orderNumber)
    requires !HasPayment(db.payments, db.orders[oi].id)
    ensures var req := PollRequest(Some(db.orders[oi].orderNumber), Some("pending"), None, transactionId);
      var a, c := UpdatePaymentStatusAsWritten(db, req, now), UpdatePaymentStatus(db, req, now);
      && a.code == ServerError
      && a.state.orders == db.orders
      && a.state.payments == db.payments + [MissingPayment(db, db.orders[oi], None, transactionId)]
      && c.code == Ok
      && c.state.orders[oi].status == "pending"
  {
    assert "pending"[0] !in TrimChars;
  }

  /**
   * A redelivery after that 500, when the payment now exists, leaves exactly
   * what `UpdatePaymentStatus` leaves after the first delivery.
   */
  lemma RetryAfterCachedRelationCompletes(db: Db, req: PollRequest, now: int, later: int)
    requires UpdatePaymentStatusAsWritten(db, req, now).code == ServerError
    ensures var r1 := UpdatePaymentStatusAsWritten(db, req, now);
      UpdatePaymentStatusAsWritten(r1.state, req, later) == UpdatePaymentStatus(db, req, later)
  {
    var r1 := UpdatePaymentStatusAsWritten(db, req, now);
    var oi := OrderByNumber(db.orders, req.orderId.value).value;
    CachedRelationAgrees(db, req, now);
    CachedRelationAgrees(r1.state, req, later);
    PollingIdempotent(db, req, now, later);
    if !HasPayment(db.payments, db.orders[oi].id) {
      RetryFromCreatedPayment(db, oi, PollingBucket(req.transactionStatus.value), PaymentTypeOrNull(req),
                              req.transactionId, later);
    }
  }

  /** Reconciling from the row "create if missing" inserted is reconciling the order that had none. */
  lemma RetryFromCreatedPayment(db: Db, oi: nat, b: Bucket, paymentType: Option<string>, supplied: Option<string>,
                                now: int)
    requires oi < |db.orders|
    requires !HasPayment(db.payments, db.orders[oi].id)
    ensures var e := EnsurePayment(db, db.orders[oi], paymentType, supplied);
      Reconcile(e, oi, b, paymentType, supplied, KeepWhenAbsent, now) == Reconcile(db, oi, b, paymentType, supplied, KeepWhenAbsent, now)
  {
    var o := db.orders[oi];
    var e := EnsurePayment(db, o, paymentType, supplied);
    assert e.orders[oi] == o;
    assert EnsurePayment(e, o, paymentType, supplied) == e;
  }

  // ---------------------------------------------------------------------------
  // The webhook's order-number parsing

  /**
   * As written, the webhook can never find an order the application created:
   * every generated number contains '-' (it starts with "ORD-"), while the
   * key `explode('-', ...)[0]` never does. Every notification is answered
   * 400 or 404 and nothing is written.
   */
  lemma WebhookNeverFindsGeneratedOrder(db: Db, payload: WebhookPayload, now: int)
    requires forall i :: 0 <= i < |db.orders| ==> Generated(db.orders[i].orderNumber)
    ensures HandleWebhook(db, payload, now).code in {BadRequest, NotFound}
    ensures HandleWebhook(db, payload, now).state == db
  {
    if !PhpFalsy(payload.orderId) {
      var key := WebhookKey(payload.orderId.value);
      forall i | 0 <= i < |db.orders|
        ensures db.orders[i].orderNumber != key
      {
        var n := db.orders[i].orderNumber;
        assert n[3] == '-';
        assert n[3] in n;
      }
    }
  }

  /** A gateway id shaped like "ORD-20240101-ABC-1700000000" yields the key "ORD". */
  lemma WebhookKeyOfExample()
    ensures WebhookKey("ORD-20240101-ABC-1700000000") == "ORD"
  {
    var tail := "20240101-ABC-1700000000";
    BeforeOfJoined("ORD", '-', tail);
    assert "ORD" + ['-'] + tail == "ORD-20240101-ABC-1700000000";
  }

  /** The key the comment at the parse describes: everything before the trailing "-{timestamp}". */
  function IntendedWebhookKey(orderId: string): (k: string)
    ensures k <= orderId
    ensures '-' in orderId ==> |k| < |orderId| && orderId[|k|] == '-' && '-' !in orderId[|k| + 1..]
    ensures '-' !in orderId ==> k == orderId
  {
    BeforeLast(orderId, '-')
  }

  /** The webhook with the intended parse. */
  function HandleWebhookIntended(db: Db, payload: WebhookPayload, now: int): (r: Reply<Db>)
    ensures r.code in {Ok, BadRequest, NotFound}
    ensures r.code != Ok ==> r.state == db
    ensures r.code == BadRequest <==> PhpFalsy(payload.orderId)
    ensures r.code == NotFound <==>
      !PhpFalsy(payload.orderId) && OrderByNumber(db.orders, IntendedWebhookKey(payload.orderId.value)).None?
    ensures r.code == Ok ==>
      Reconciled(db, r.state, OrderByNumber(db.orders, IntendedWebhookKey(payload.orderId.value)).value,
                 WebhookBucket(payload.transactionStatus, payload.fraudStatus), payload.paymentType,
                 payload.transactionId, Overwrite, now)
  {
    if PhpFalsy(payload.orderId) then Reply(BadRequest, db)
    else ReconcileByKey(db, IntendedWebhookKey(payload.orderId.value), payload, now)
  }

  /** The intended parse recovers the order number from "{order_number}-{timestamp}", whatever the number contains. */
  lemma IntendedWebhookKeyRecoversNumber(orderNumber: string, time: nat)
    ensures IntendedWebhookKey(IntendedGatewayOrderId(orderNumber, time)) == orderNumber
  {
    var t := NatToString(time);
    assert '-' !in t by {
      forall i | 0 <= i < |t| ensures t[i] != '-' { assert IsDigit(t[i]); }
    }
    BeforeLastOfJoined(orderNumber, '-', t);
  }

  /** The intended key of "ORD-20240101-ABC-1700000000" is the order number "ORD-20240101-ABC". */
  lemma IntendedWebhookKeyOfExample()
    ensures IntendedWebhookKey("ORD-20240101-ABC-1700000000") == "ORD-20240101-ABC"
  {
    var head := "ORD-20240101-ABC";
    BeforeLastOfJoined(head, '-', "1700000000");
    assert head + ['-'] + "1700000000" == "ORD-20240101-ABC-1700000000";
  }

  /** With the intended parse, a notification for an order's gateway id reaches that order. */
  lemma IntendedWebhookFindsOrder(db: Db, oi: nat, time: nat, payload: WebhookPayload, now: int)
    requires oi < |db.orders|
    requires OrderByNumber(db.orders, db.orders[oi].orderNumber) == Some(oi)
    requires payload.orderId == Some(IntendedGatewayOrderId(db.orders[oi].orderNumber, time))
    ensures HandleWebhookIntended(db, payload, now).code == Ok
    ensures Reconciled(db, HandleWebhookIntended(db, payload, now).state, oi,
                       WebhookBucket(payload.transactionStatus, payload.fraudStatus), payload.paymentType,
                       payload.transactionId, Overwrite, now)
  {
    IntendedWebhookKeyRecoversNumber(db.orders[oi].orderNumber, time);
    assert payload.orderId.value[|payload.orderId.value| - 1] != '-';
  }

  /** The `payment_type` the corrected poll writes on settlement: the one supplied, else the method the payment already has. */
  function PaymentTypeOrStored(db: Db, o: Order, req: PollRequest): Option<string> {
    if req.paymentType.Some? then req.paymentType.value else BasePayment(db, o, None, req.transactionId).paymentMethod
  }

  /**
   * The corrected poll's lookup: the whole `order_id` first, as the poll does,
   * and only when no order has that number, the id cut back at its trailing
   * "-{timestamp}".
   */
  function PollLookup(orders: seq<Order>, orderId: string): (r: Option<nat>)
    ensures OrderByNumber(orders, orderId).Some? ==> r == OrderByNumber(orders, orderId)
    ensures OrderByNumber(orders, orderId).None? ==> r == OrderByNumber(orders, IntendedWebhookKey(orderId))
    ensures r.Some? ==>
      r.value < |orders| && orders[r.value].orderNumber in {orderId, IntendedWebhookKey(orderId)}
  {
    match OrderByNumber(orders, orderId)
    case Some(oi) => Some(oi)
    case None => OrderByNumber(orders, IntendedWebhookKey(orderId))
  }

  /**
   * `updatePaymentStatus` as its callers need it: a bare order number is found
   * as before, a gateway id "{order_number}-{timestamp}" is cut back to the
   * order number, as the webhook's comment describes, and a settlement without
   * `payment_type` keeps the stored method, as the `transaction_id` column
   * next to it does.
   */
  function UpdatePaymentStatusIntended(db: Db, req: PollRequest, now: int): (r: Reply<Db>)
    ensures r.code in {Ok, NotFound, Unprocessable}
    ensures r.code != Ok ==> r.state == db
    ensures r.code == Unprocessable <==> !Present(req.orderId) || !Present(req.transactionStatus)
    ensures r.code == NotFound <==>
      && r.code != Unprocessable
      && OrderByNumber(db.orders, req.orderId.value).None?
      && OrderByNumber(db.orders, IntendedWebhookKey(req.orderId.value)).None?
    ensures r.code == Ok ==>
      var oi := PollLookup(db.orders, req.orderId.value).value;
      Reconciled(db, r.state, oi, PollingBucket(req.transactionStatus.value),
                 PaymentTypeOrStored(db, db.orders[oi], req), req.transactionId, KeepWhenAbsent, now)
    ensures r.code == Ok && req.paymentType.None? ==>
      var o := db.orders[PollLookup(db.orders, req.orderId.value).value];
      r.state.payments[PaymentOfOrder(r.state.payments, o.id).value].paymentMethod
        == BasePayment(db, o, None, req.transactionId).paymentMethod
  {
    if !Present(req.orderId) || !Present(req.transactionStatus) then Reply(Unprocessable, db)
    else match PollLookup(db.orders, req.orderId.value)
      case None => Reply(NotFound, db)
      case Some(oi) =>
        Reply(Ok, Reconcile(db, oi, PollingBucket(req.transactionStatus.value),
                            PaymentTypeOrStored(db, db.orders[oi], req), req.transactionId, KeepWhenAbsent, now))
  }

  /**
   * The corrected poll departs from the poll as written only where the latter
   * fails: wherever the poll answers 200 or 422 the two agree exactly, a 500
   * becomes a 200, and a 404 stays one unless the cut-back id names an order.
   */
  lemma IntendedPollAgrees(db: Db, req: PollRequest, now: int)
    ensures var r, i := UpdatePaymentStatus(db, req, now), UpdatePaymentStatusIntended(db, req, now);
      && (r.code == Ok || r.code == Unprocessable ==> i == r)
      && (r.code == ServerError ==> i.code == Ok)
      && (r.code == NotFound ==> (i.code == NotFound <==> OrderByNumber(db.orders, IntendedWebhookKey(req.orderId.value)).None?))
  {
    var r := UpdatePaymentStatus(db, req, now);
    if r.code == Ok {
      var oi := OrderByNumber(db.orders, req.orderId.value).value;
      var o := db.orders[oi];
      var b := PollingBucket(req.transactionStatus.value);
      if req.paymentType.None? {
        assert b != Settle;
        var pt := PaymentTypeOrStored(db, o, req);
        assert EnsurePayment(db, o, pt, req.transactionId) == EnsurePayment(db, o, None, req.transactionId);
      }
    }
  }

  /**
   * With the corrected poll, a request for an order's gateway id
   * "{order_number}-{time}" reaches that order, provided no order has the
   * whole id as its number; a settlement without `payment_type` then marks
   * the payment paid and the order processing, keeping the stored method.
   */
  lemma IntendedPollFindsOrder(db: Db, oi: nat, time: nat, req: PollRequest, now: int)
    requires oi < |db.orders|
    requires OrderByNumber(db.orders, db.orders[oi].orderNumber) == Some(oi)
    requires req.orderId == Some(IntendedGatewayOrderId(db.orders[oi].orderNumber, time))
    requires OrderByNumber(db.orders, req.orderId.value).None?
    requires Present(req.transactionStatus)
    ensures var r := UpdatePaymentStatusIntended(db, req, now);
      && r.code == Ok
      && Reconciled(db, r.state, oi, PollingBucket(req.transactionStatus.value),
                    PaymentTypeOrStored(db, db.orders[oi], req), req.transactionId, KeepWhenAbsent, now)
    ensures var r := UpdatePaymentStatusIntended(db, req, now);
      var pi := PaymentOfOrder(r.state.payments, db.orders[oi].id).value;
      req.transactionStatus == Some("settlement") && req.paymentType.None? ==>
        && r.state.orders[oi].status == "processing"
        && IsPaid(r.state.payments[pi])
        && r.state.payments[pi].paidAt == Some(now)
        && r.state.payments[pi].paymentMethod == BasePayment(db, db.orders[oi], None, req.transactionId).paymentMethod
  {
    var n := db.orders[oi].orderNumber;
    IntendedWebhookKeyRecoversNumber(n, time);
    assert req.orderId.value[|n|] == '-';
  }

  /**
   * The gateway id `show` actually sends, "order-{id}-{time}", is no order
   * number either: neither entry point can resolve it to an order.
   */
  lemma GatewayOrderIdNeverResolves(db: Db, orderId: nat, time: nat, req: PollRequest, payload: WebhookPayload, now: int)
    requires forall i :: 0 <= i < |db.orders| ==> Generated(db.orders[i].orderNumber)
    requires req.orderId == Some(GatewayOrderId(orderId, time))
    requires payload.orderId == Some(GatewayOrderId(orderId, time))
    ensures UpdatePaymentStatus(db, req, now).code in {NotFound, Unprocessable}
    ensures UpdatePaymentStatus(db, req, now).state == db
    ensures HandleWebhook(db, payload, now).code == NotFound
  {
    GatewayOrderIdNotGenerated(orderId, time);
    WebhookNeverFindsGeneratedOrder(db, payload, now);
    assert payload.orderId.value[0] == 'o';
  }
}

/**
 * OrderController: placing an order at current menu prices with a notification
 * to every admin, showing an order together with its gateway token, and the
 * admin's free-form status override. The gateway's token call is a parameter
 * (`Some(token)` or `None` for a failed call); so are the clock and `uniqid()`.
 */
module OrderController {
  import opened Wrappers
  import opened Strings
  import opened Seqs
  import opened Http
  import opened PaymentModel
  import opened Records
  import opened OrderNumbers
  import CheckoutController
  import PaymentController

  // ---------------------------------------------------------------------------
  // store

  /** One requested line; either key may be missing. */
  datatype LineRequest = LineRequest(menuItemId: Option<int>, quantity: Option<int>)

  /**
   * `'items' => 'required|array'`, `'items.*.menu_item_id' => 'required|exists:menu_items,id'`,
   * `'items.*.quantity' => 'required|integer|min:1'`. An empty array fails `required`.
   */
  predicate ItemsValid(menu: map<int, MenuItem>, items: Option<seq<LineRequest>>) {
    && items.Some? && |items.value| >= 1
    && forall i :: 0 <= i < |items.value| ==>
         && items.value[i].menuItemId.Some? && items.value[i].menuItemId.value in menu
         && items.value[i].quantity.Some? && items.value[i].quantity.value >= 1
  }

  /** The validated lines priced at the menu's current prices. */
  function PriceLines(menu: map<int, MenuItem>, items: seq<LineRequest>): (lines: seq<PricedLine>)
    requires ItemsValid(menu, Some(items))
    ensures |lines| == |items|
    ensures forall k :: 0 <= k < |items| ==>
      && lines[k].menuItemId == items[k].menuItemId.value
      && lines[k].quantity == items[k].quantity.value
      && lines[k].menuItemId in menu
      && lines[k].price == menu[lines[k].menuItemId].price
      && lines[k].quantity >= 1
      && lines[k].notes.None?
  {
    seq(|items|, k requires 0 <= k < |items| =>
      PricedLine(items[k].menuItemId.value, items[k].quantity.value, menu[items[k].menuItemId.value].price, None))
  }

  /** `User::where('role', 'admin')->get()`. */
  function Admins(users: seq<User>): (admins: seq<User>)
    ensures forall u :: u in admins <==> u in users && u.role == "admin"
    ensures forall u :: multiset(admins)[u] == if u.role == "admin" then multiset(users)[u] else 0
    ensures Subsequence(admins, users)
  {
    FilterContents(users, (u: User) => u.role == "admin");
    FilterSubsequence(users, (u: User) => u.role == "admin");
    Filter(users, (u: User) => u.role == "admin")
  }

  /** One description part per line: "{name} × {quantity}". */
  function DescriptionParts(menu: map<int, MenuItem>, lines: seq<PricedLine>): (parts: seq<string>)
    requires forall k :: 0 <= k < |lines| ==> lines[k].menuItemId in menu && lines[k].quantity >= 0
    ensures |parts| == |lines|
    ensures forall k :: 0 <= k < |lines| ==> parts[k] == menu[lines[k].menuItemId].name + " × " + NatToString(lines[k].quantity)
  {
    seq(|lines|, k requires 0 <= k < |lines| && lines[k].menuItemId in menu && lines[k].quantity >= 0 =>
      menu[lines[k].menuItemId].name + " × " + NatToString(lines[k].quantity))
  }

  /** The description as built: each part followed by ", ", then `rtrim($orderDesc, ", ")`. */
  function Description(menu: map<int, MenuItem>, lines: seq<PricedLine>): string
    requires forall k :: 0 <= k < |lines| ==> lines[k].menuItemId in menu && lines[k].quantity >= 0
  {
    RTrim(Terminated(DescriptionParts(menu, lines), ", "), {',', ' '})
  }

  /**
   * The trim removes exactly the final separator, because every part ends in
   * a digit of the quantity: the description is the parts joined by ", ".
   */
  lemma DescriptionIsJoin(menu: map<int, MenuItem>, lines: seq<PricedLine>)
    requires |lines| >= 1
    requires forall k :: 0 <= k < |lines| ==> lines[k].menuItemId in menu && lines[k].quantity >= 0
    ensures Description(menu, lines) == Join(DescriptionParts(menu, lines), ", ")
  {
    var parts := DescriptionParts(menu, lines);
    var last := parts[|parts| - 1];
    var q := NatToString(lines[|lines| - 1].quantity);
    assert last[|last| - 1] == q[|q| - 1];
    JoinLast(parts, ", ");
    TerminatedIsJoinThenSep(parts, ", ");
    RTrimStops(Join(parts, ", "), ", ", {',', ' '});
  }

  /** One unread notification per admin, numbered on from `firstId`. */
  function AdminNotices(firstId: nat, admins: seq<User>, title: string, message: string): (ns: seq<Notification>)
    ensures |ns| == |admins|
    ensures forall k :: 0 <= k < |admins| ==>
      ns[k] == Notification(firstId + k, admins[k].id, title, message, false)
  {
    seq(|admins|, k requires 0 <= k < |admins| => Notification(firstId + k, admins[k].id, title, message, false))
  }

  /**
   * POST /orders by `user`. Validation failures get 422 and a database fault
   * 500, both with nothing written. Otherwise the order is priced from the
   * menu, its items capture the menu prices, the stock and the payments are
   * untouched, and every admin is notified; the reply is 200.
   */
  function Store(db: Db, user: User, items: Option<seq<LineRequest>>, uniqid: string, dbFault: bool): (r: Reply<Db>)
    ensures r.code in {Ok, Unprocessable, ServerError}
    ensures r.code != Ok ==> r.state == db
    ensures r.code == Unprocessable <==> !ItemsValid(db.menu, items)
    ensures r.code == ServerError <==> ItemsValid(db.menu, items) && dbFault
    ensures r.code == Ok ==>
      var lines := PriceLines(db.menu, items.value);
      var n := |db.orders|;
      var m := |db.orderItems|;
      && r.state.users == db.users && r.state.menu == db.menu && r.state.payments == db.payments
      && |r.state.orders| == n + 1 && r.state.orders[..n] == db.orders
      && var o := r.state.orders[n];
      && o == Order(n + 1, user.id, StoreNumber(uniqid), LinesTotal(lines), "pending")
      && r.state.orderItems == db.orderItems + ItemsFor(o.id, lines)
      && SubtotalSum(r.state.orderItems[m..]) == o.totalAmount
      && r.state.notifications == db.notifications +
           AdminNotices(|db.notifications| + 1, Admins(db.users), "Order Baru #" + o.orderNumber,
                        "Pesanan dari " + user.name + ": " + Join(DescriptionParts(db.menu, lines), ", "))
  {
    if !ItemsValid(db.menu, items) then Reply(Unprocessable, db)
    else if dbFault then Reply(ServerError, db)
    else
      var lines := PriceLines(db.menu, items.value);
      var o := Order(|db.orders| + 1, user.id, StoreNumber(uniqid), LinesTotal(lines), "pending");
      var orderItems := ItemsFor(o.id, lines);
      DescriptionIsJoin(db.menu, lines);
      var notices := AdminNotices(|db.notifications| + 1, Admins(db.users), "Order Baru #" + o.orderNumber,
                                  "Pesanan dari " + user.name + ": " + Description(db.menu, lines));
      ItemsSumToTotal(o.id, lines);
      assert (db.orderItems + orderItems)[|db.orderItems|..] == orderItems;
      Reply(Ok, db.(orders := db.orders + [o], orderItems := db.orderItems + orderItems,
                    notifications := db.notifications + notices))
  }

  /**
   * The new order's items are the requested lines at the menu's prices of the
   * moment, whatever prices the client may believe in.
   */
  lemma StoreCapturesMenuPrices(db: Db, user: User, items: Option<seq<LineRequest>>, uniqid: string, dbFault: bool)
    ensures var r := Store(db, user, items, uniqid, dbFault);
      r.code == Ok ==>
        var m := |db.orderItems|;
        && |r.state.orderItems| == m + |items.value|
        && forall k :: 0 <= k < |items.value| ==>
             var it := r.state.orderItems[m + k];
             && it.orderId == |db.orders| + 1
             && it.menuItemId == items.value[k].menuItemId.value
             && it.quantity == items.value[k].quantity.value
             && it.price == db.menu[it.menuItemId].price
             && it.subtotal == it.price * it.quantity
  {
  }

  /** The order placed from the seeded menu: two Kopi Susu, a Pisang Goreng and an Es Teh come to 50000. */
  lemma StoreScenario(user: User, uniqid: string)
    ensures
      var menu := map[1 := MenuItem("Kopi Susu", 15000, 50), 2 := MenuItem("Es Teh", 8000, 80),
                      3 := MenuItem("Pisang Goreng", 12000, 30)];
      var db := Db([], menu, [], [], [], []);
      var items := [LineRequest(Some(1), Some(2)), LineRequest(Some(3), Some(1)), LineRequest(Some(2), Some(1))];
      var r := Store(db, user, Some(items), uniqid, false);
      r.code == Ok && r.state.orders[0].totalAmount == 50000 && r.state.menu == menu
  {
    var menu := map[1 := MenuItem("Kopi Susu", 15000, 50), 2 := MenuItem("Es Teh", 8000, 80),
                    3 := MenuItem("Pisang Goreng", 12000, 30)];
    var items := [LineRequest(Some(1), Some(2)), LineRequest(Some(3), Some(1)), LineRequest(Some(2), Some(1))];
    var lines := PriceLines(menu, items);
    assert lines == [PricedLine(1, 2, 15000, None), PricedLine(3, 1, 12000, None), PricedLine(2, 1, 8000, None)];
    var amount := (l: PricedLine) => LineAmount(l.price, l.quantity);
    assert lines[..0] == [] && lines[..1][..0] == [] && lines[..2][..1] == lines[..1];
    assert SumBy(lines[..1], amount) == 30000;
    assert SumBy(lines[..2], amount) == 42000;
    assert SumBy(lines, amount) == 50000;
  }

  // ---------------------------------------------------------------------------
  // show

  /** Admins see every order; everybody else only their own. */
  predicate Visible(o: Order, viewer: User) {
    viewer.role == "admin" || o.userId == viewer.id
  }

  /** `Order::...->find($id)`, with `->where('user_id', $user->id)` for non-admins. */
  function FindVisible(orders: seq<Order>, id: int, viewer: User): Option<nat> {
    FirstIndex(orders, (o: Order) => o.id == id && Visible(o, viewer))
  }

  /** The gateway request's `transaction_details`. */
  datatype GatewayRequest = GatewayRequest(orderId: string, grossAmount: int)

  /** The reply with its `snap_token`, and the token request sent to the gateway, if any. */
  datatype ShowReply = ShowReply(code: int, state: Db, snapToken: Option<string>, request: Option<GatewayRequest>)

  /** The order's payment already carries a token `!empty` accepts. */
  predicate HasReusableToken(payments: seq<Payment>, orderId: nat) {
    match PaymentOfOrder(payments, orderId)
    case None => false
    case Some(pi) => !PhpFalsy(payments[pi].snapToken)
  }

  /**
   * A line of the order whose menu item no longer exists. Building the
   * gateway's `item_details` reads that item's name through a null relation,
   * which raises before the gateway is called.
   */
  predicate HasDanglingLine(db: Db, orderId: nat) {
    exists i :: 0 <= i < |db.orderItems| && db.orderItems[i].orderId == orderId && db.orderItems[i].menuItemId !in db.menu
  }

  /**
   * GET /orders/{id}. 404 unless the viewer may see the order. A payment whose
   * token is not empty answers at once. A line naming a missing menu item then
   * answers 500 with no gateway call. Otherwise a token is requested for
   * "order-{id}-{time}" and the order's total; a failed call answers 500, a
   * successful one appends a new pending payment carrying the token.
   */
  function Show(db: Db, orderId: int, viewer: User, time: nat, gateway: Option<string>): (r: ShowReply)
    ensures r.code in {Ok, NotFound, ServerError}
    ensures r.code != Ok ==> r.state == db && r.snapToken.None?
    ensures r.code == NotFound <==> forall i :: 0 <= i < |db.orders| ==> !(db.orders[i].id == orderId && Visible(db.orders[i], viewer))
    ensures r.code != NotFound ==>
      var o := db.orders[FindVisible(db.orders, orderId, viewer).value];
      && o.id == orderId && Visible(o, viewer)
      && (HasReusableToken(db.payments, o.id) ==>
            && r.code == Ok && r.state == db && r.request.None?
            && r.snapToken == db.payments[PaymentOfOrder(db.payments, o.id).value].snapToken)
      && (!HasReusableToken(db.payments, o.id) && HasDanglingLine(db, o.id) ==>
            r.code == ServerError && r.request.None?)
      && (!HasReusableToken(db.payments, o.id) && !HasDanglingLine(db, o.id) ==>
            && r.request == Some(GatewayRequest(GatewayOrderId(o.id, time), o.totalAmount))
            && (r.code == Ok <==> gateway.Some?)
            && (r.code == Ok ==>
                  && r.snapToken == gateway
                  && r.state == db.(payments := db.payments + [NewPayment(|db.payments| + 1, o.id, o.totalAmount).(snapToken := gateway)])))
  {
    match FindVisible(db.orders, orderId, viewer)
    case None => ShowReply(NotFound, db, None, None)
    case Some(oi) =>
      var o := db.orders[oi];
      if HasReusableToken(db.payments, o.id) then
        ShowReply(Ok, db, db.payments[PaymentOfOrder(db.payments, o.id).value].snapToken, None)
      else if HasDanglingLine(db, o.id) then
        ShowReply(ServerError, db, None, None)
      else
        var request := GatewayRequest(GatewayOrderId(o.id, time), o.totalAmount);
        match gateway
        case None => ShowReply(ServerError, db, None, Some(request))
        case Some(token) =>
          var p := NewPayment(|db.payments| + 1, o.id, o.totalAmount).(snapToken := Some(token));
          ShowReply(Ok, db.(payments := db.payments + [p]), Some(token), Some(request))
  }

  /** A customer asking for somebody else's order gets 404 and nothing changes. */
  lemma ShowHidesOthersOrders(db: Db, orderId: int, viewer: User, time: nat, gateway: Option<string>)
    requires viewer.role != "admin"
    requires forall i :: 0 <= i < |db.orders| && db.orders[i].id == orderId ==> db.orders[i].userId != viewer.id
    ensures Show(db, orderId, viewer, time, gateway).code == NotFound
    ensures Show(db, orderId, viewer, time, gateway).state == db
  {
  }

  /**
   * A payment without a token is not updated but joined by a second one:
   * after `show`, the order has two payment rows.
   */
  lemma ShowDuplicatesPayment(db: Db, orderId: int, viewer: User, time: nat, token: string)
    requires FindVisible(db.orders, orderId, viewer).Some?
    requires var o := db.orders[FindVisible(db.orders, orderId, viewer).value];
      HasPayment(db.payments, o.id) && !HasReusableToken(db.payments, o.id) && !HasDanglingLine(db, o.id)
    ensures var r := Show(db, orderId, viewer, time, Some(token));
      var o := db.orders[FindVisible(db.orders, orderId, viewer).value];
      && r.code == Ok
      && |r.state.payments| == |db.payments| + 1
      && var pi := PaymentOfOrder(db.payments, o.id).value;
      && r.state.payments[pi].orderId == o.id && r.state.payments[|db.payments|].orderId == o.id
      && !AtMostOnePaymentPerOrder(r.state.payments)
  {
    var r := Show(db, orderId, viewer, time, Some(token));
    var o := db.orders[FindVisible(db.orders, orderId, viewer).value];
    var pi := PaymentOfOrder(db.payments, o.id).value;
    assert r.state.payments[pi] == db.payments[pi];
  }

  /**
   * Checkout never stores a token on the payment it creates, so the first
   * `show` of a freshly checked-out order duplicates its payment, unless a
   * line names a missing menu item, which only an unchecked foreign key lets
   * in; then `show` answers 500 and writes nothing.
   */
  lemma CheckoutThenShowDuplicates(db: Db, user: User, req: CheckoutController.CheckoutRequest, date: Date,
                                   random10: string, random20: string, foreignKeys: bool, time: nat, token: string)
    requires IdsArePositions(db)
    requires forall i :: 0 <= i < |db.payments| ==> db.payments[i].orderId <= |db.orders|
    requires CheckoutController.Checkout(db, user.id, req, date, random10, random20, foreignKeys, false).code == Created
    ensures var db1 := CheckoutController.Checkout(db, user.id, req, date, random10, random20, foreignKeys, false).state;
      var r := Show(db1, |db.orders| + 1, user, time, Some(token));
      && (!HasDanglingLine(db1, |db.orders| + 1) ==> r.code == Ok && !AtMostOnePaymentPerOrder(r.state.payments))
      && (HasDanglingLine(db1, |db.orders| + 1) ==> r.code == ServerError && r.state == db1 && r.request.None?)
      && (foreignKeys && (forall i :: 0 <= i < |db.orderItems| ==> db.orderItems[i].orderId <= |db.orders|) ==>
            !HasDanglingLine(db1, |db.orders| + 1))
  {
    var db1 := CheckoutController.Checkout(db, user.id, req, date, random10, random20, foreignKeys, false).state;
    var n := |db.orders|;
    assert forall i :: 0 <= i < n ==> db1.orders[i] == db.orders[i];
    assert FindVisible(db1.orders, n + 1, user) == Some(n) by {
      FirstIndexSomeIff(db1.orders, (o: Order) => o.id == n + 1 && Visible(o, user), n);
    }
    assert forall i :: 0 <= i < |db.payments| ==> db1.payments[i] == db.payments[i];
    assert PaymentOfOrder(db1.payments, n + 1) == Some(|db.payments|) by {
      FirstIndexSomeIff(db1.payments, (p: Payment) => p.orderId == n + 1, |db.payments|);
    }
    if !HasDanglingLine(db1, n + 1) {
      ShowDuplicatesPayment(db1, n + 1, user, time, token);
    }
    if foreignKeys && (forall i :: 0 <= i < |db.orderItems| ==> db.orderItems[i].orderId <= n) {
      CheckoutLinesResolve(db, user.id, req, date, random10, random20);
    }
  }

  /** Under checked foreign keys, every line of the order checkout creates names an item still on the menu. */
  lemma CheckoutLinesResolve(db: Db, userId: nat, req: CheckoutController.CheckoutRequest, date: Date,
                             random10: string, random20: string)
    requires forall i :: 0 <= i < |db.orderItems| ==> db.orderItems[i].orderId <= |db.orders|
    requires CheckoutController.Checkout(db, userId, req, date, random10, random20, true, false).code == Created
    ensures !HasDanglingLine(CheckoutController.Checkout(db, userId, req, date, random10, random20, true, false).state,
                             |db.orders| + 1)
  {
    var db1 := CheckoutController.Checkout(db, userId, req, date, random10, random20, true, false).state;
    var lines := CheckoutController.Lines(req.cart.value).value;
    var m := |db.orderItems|;
    assert CheckoutController.Insertable(db.menu, lines, true);
    forall i | 0 <= i < |db1.orderItems| && db1.orderItems[i].orderId == |db.orders| + 1
      ensures db1.orderItems[i].menuItemId in db1.menu
    {
      assert i >= m;
      assert db1.orderItems[i] == ItemsFor(|db.orders| + 1, lines)[i - m];
    }
  }

  /**
   * `show` as intended: the gateway id is "{order_number}-{time}", which the
   * webhook's parse can take apart, and a token obtained for an order that
   * already has a payment is stored on that payment instead of a new row.
   */
  function ShowIntended(db: Db, orderId: int, viewer: User, time: nat, gateway: Option<string>): (r: ShowReply)
    ensures r.code in {Ok, NotFound, ServerError}
    ensures r.code != Ok ==> r.state == db && r.snapToken.None?
    ensures r.code == NotFound <==> FindVisible(db.orders, orderId, viewer).None?
    ensures r.code != NotFound ==>
      var o := db.orders[FindVisible(db.orders, orderId, viewer).value];
      && (HasReusableToken(db.payments, o.id) ==> r.code == Ok && r.state == db && r.request.None?)
      && (!HasReusableToken(db.payments, o.id) && HasDanglingLine(db, o.id) ==>
            r.code == ServerError && r.request.None?)
      && (!HasReusableToken(db.payments, o.id) && !HasDanglingLine(db, o.id) ==>
            && r.request == Some(GatewayRequest(IntendedGatewayOrderId(o.orderNumber, time), o.totalAmount))
            && (r.code == Ok <==> gateway.Some?))
      && (r.code == Ok ==>
            && r.state.users == db.users && r.state.menu == db.menu && r.state.orders == db.orders
            && r.state.orderItems == db.orderItems && r.state.notifications == db.notifications
            && PaymentOfOrder(r.state.payments, o.id).Some?
            && r.snapToken == r.state.payments[PaymentOfOrder(r.state.payments, o.id).value].snapToken
            && (HasPayment(db.payments, o.id) ==> |r.state.payments| == |db.payments|))
      && (r.code == Ok && !HasReusableToken(db.payments, o.id) ==>
            && r.snapToken == gateway
            && (HasPayment(db.payments, o.id) ==>
                  var pi := PaymentOfOrder(db.payments, o.id).value;
                  r.state.payments == db.payments[pi := db.payments[pi].(snapToken := gateway)])
            && (!HasPayment(db.payments, o.id) ==>
                  r.state.payments == db.payments + [NewPayment(|db.payments| + 1, o.id, o.totalAmount).(snapToken := gateway)]))
  {
    match FindVisible(db.orders, orderId, viewer)
    case None => ShowReply(NotFound, db, None, None)
    case Some(oi) =>
      var o := db.orders[oi];
      if HasReusableToken(db.payments, o.id) then
        ShowReply(Ok, db, db.payments[PaymentOfOrder(db.payments, o.id).value].snapToken, None)
      else if HasDanglingLine(db, o.id) then
        ShowReply(ServerError, db, None, None)
      else
        var request := GatewayRequest(IntendedGatewayOrderId(o.orderNumber, time), o.totalAmount);
        match gateway
        case None => ShowReply(ServerError, db, None, Some(request))
        case Some(token) =>
          match PaymentOfOrder(db.payments, o.id)
          case Some(pi) =>
            var payments := db.payments[pi := db.payments[pi].(snapToken := Some(token))];
            FirstIndexAgree(payments, (p: Payment) => p.orderId == o.id, db.payments, (p: Payment) => p.orderId == o.id);
            ShowReply(Ok, db.(payments := payments), Some(token), Some(request))
          case None =>
            var p := NewPayment(|db.payments| + 1, o.id, o.totalAmount).(snapToken := Some(token));
            FirstIndexSomeIff(db.payments + [p], (q: Payment) => q.orderId == o.id, |db.payments|);
            ShowReply(Ok, db.(payments := db.payments + [p]), Some(token), Some(request))
  }

  /** The intended `show` keeps orders and payments one-to-one. */
  lemma ShowIntendedKeepsOnePayment(db: Db, orderId: int, viewer: User, time: nat, gateway: Option<string>)
    requires AtMostOnePaymentPerOrder(db.payments)
    ensures AtMostOnePaymentPerOrder(ShowIntended(db, orderId, viewer, time, gateway).state.payments)
  {
    var r := ShowIntended(db, orderId, viewer, time, gateway);
    if r.code == Ok && r.state.payments != db.payments {
      var o := db.orders[FindVisible(db.orders, orderId, viewer).value];
      if |r.state.payments| > |db.payments| {
        assert forall j :: 0 <= j < |db.payments| ==> r.state.payments[j] == db.payments[j];
        assert forall j :: 0 <= j < |db.payments| ==> db.payments[j].orderId != o.id;
      } else {
        assert forall j :: 0 <= j < |db.payments| ==> r.state.payments[j].orderId == db.payments[j].orderId;
      }
    }
  }

  /** Once the intended `show` has stored a non-empty token, asking again returns it and changes nothing. */
  lemma ShowIntendedThenReuses(db: Db, orderId: int, viewer: User, time: nat, later: nat, token: string,
                               gateway: Option<string>)
    requires token != "" && token != "0"
    ensures var r1 := ShowIntended(db, orderId, viewer, time, Some(token));
      var r2 := ShowIntended(r1.state, orderId, viewer, later, gateway);
      r1.code == Ok ==> r2.code == Ok && r2.state == r1.state && r2.snapToken == r1.snapToken && r2.request.None?
  {
    var r1 := ShowIntended(db, orderId, viewer, time, Some(token));
    if r1.code == Ok {
      FirstIndexAgree(r1.state.orders, (o: Order) => o.id == orderId && Visible(o, viewer),
                      db.orders, (o: Order) => o.id == orderId && Visible(o, viewer));
    }
  }

  /**
   * The gateway id the intended `show` requests a token for leads the
   * intended webhook back to the order: the order's notifications are applied.
   */
  lemma IntendedGatewayIdReachesOrder(db: Db, orderId: int, viewer: User, time: nat, token: string,
                                      payload: PaymentController.WebhookPayload, now: int)
    requires FindVisible(db.orders, orderId, viewer).Some?
    requires var oi := FindVisible(db.orders, orderId, viewer).value;
      OrderByNumber(db.orders, db.orders[oi].orderNumber) == Some(oi)
    requires var r := ShowIntended(db, orderId, viewer, time, Some(token));
      r.request.Some? && payload.orderId == Some(r.request.value.orderId)
    ensures var r := ShowIntended(db, orderId, viewer, time, Some(token));
      var oi := FindVisible(db.orders, orderId, viewer).value;
      && PaymentController.HandleWebhookIntended(r.state, payload, now).code == Ok
      && PaymentController.Reconciled(r.state, PaymentController.HandleWebhookIntended(r.state, payload, now).state, oi,
           PaymentController.WebhookBucket(payload.transactionStatus, payload.fraudStatus), payload.paymentType,
           payload.transactionId, PaymentController.Overwrite, now)
  {
    var r := ShowIntended(db, orderId, viewer, time, Some(token));
    var oi := FindVisible(db.orders, orderId, viewer).value;
    PaymentController.IntendedWebhookFindsOrder(r.state, oi, time, payload, now);
  }

  /**
   * The routed path: a status update carrying the gateway id the intended
   * `show` requested a token for reaches the corrected poll, which reconciles
   * that order, provided no order has the whole id as its number.
   */
  lemma IntendedGatewayIdReachesOrderByPoll(db: Db, orderId: int, viewer: User, time: nat, token: string,
                                            req: PaymentController.PollRequest, now: int)
    requires FindVisible(db.orders, orderId, viewer).Some?
    requires var oi := FindVisible(db.orders, orderId, viewer).value;
      OrderByNumber(db.orders, db.orders[oi].orderNumber) == Some(oi)
    requires var r := ShowIntended(db, orderId, viewer, time, Some(token));
      r.request.Some? && req.orderId == Some(r.request.value.orderId)
    requires OrderByNumber(db.orders, req.orderId.value).None?
    requires Present(req.transactionStatus)
    ensures var r := ShowIntended(db, orderId, viewer, time, Some(token));
      var oi := FindVisible(db.orders, orderId, viewer).value;
      && PaymentController.UpdatePaymentStatusIntended(r.state, req, now).code == Ok
      && PaymentController.Reconciled(r.state, PaymentController.UpdatePaymentStatusIntended(r.state, req, now).state, oi,
           PaymentController.PollingBucket(req.transactionStatus.value),
           PaymentController.PaymentTypeOrStored(r.state, r.state.orders[oi], req),
           req.transactionId, PaymentController.KeepWhenAbsent, now)
  {
    var r := ShowIntended(db, orderId, viewer, time, Some(token));
    var oi := FindVisible(db.orders, orderId, viewer).value;
    PaymentController.IntendedPollFindsOrder(r.state, oi, time, req, now);
  }

  // ---------------------------------------------------------------------------
  // updateStatus

  /**
   * PATCH /orders/{id}/status. The status must be a non-empty string (422);
   * a missing order is 404; any such string is stored as it is.
   */
  function UpdateStatus(db: Db, orderId: int, status: Option<string>): (r: Reply<Db>)
    ensures r.code in {Ok, NotFound, Unprocessable}
    ensures r.code != Ok ==> r.state == db
    ensures r.code == Unprocessable <==> !Present(status)
    ensures r.code == NotFound <==> Present(status) && OrderById(db.orders, orderId).None?
    ensures r.code == Ok ==>
      var oi := OrderById(db.orders, orderId).value;
      && r.state == db.(orders := r.state.orders)
      && |r.state.orders| == |db.orders|
      && (forall i :: 0 <= i < |db.orders| && i != oi ==> r.state.orders[i] == db.orders[i])
      && r.state.orders[oi] == db.orders[oi].(status := status.value)
  {
    if !Present(status) then Reply(Unprocessable, db)
    else match OrderById(db.orders, orderId)
      case None => Reply(NotFound, db)
      case Some(oi) => Reply(Ok, db.(orders := db.orders[oi := db.orders[oi].(status := status.value)]))
  }

  /** Setting the same status twice is setting it once. */
  lemma UpdateStatusIdempotent(db: Db, orderId: int, status: Option<string>)
    ensures var r1 := UpdateStatus(db, orderId, status);
      UpdateStatus(r1.state, orderId, status) == r1
  {
    var r1 := UpdateStatus(db, orderId, status);
    if r1.code == Ok {
      var oi := OrderById(db.orders, orderId).value;
      FirstIndexAgree(r1.state.orders, (o: Order) => o.id == orderId, db.orders, (o: Order) => o.id == orderId);
      assert r1.state.orders[oi := r1.state.orders[oi].(status := status.value)] == r1.state.orders;
    }
  }
}

/**
 * POST /checkout: turns a client cart into an order, its order items, a stock
 * decrement per line and a pending payment, inside one database transaction.
 * The cart's unit prices are taken from the client as sent. The clock and the
 * random sources are parameters; so are whether the schema enforces the
 * `order_items.menu_item_id` foreign key and whether the database raises
 * mid-transaction (either way the transaction rolls back and the reply is 500).
 */
module CheckoutController {
  import opened Wrappers
  import opened Strings
  import opened Seqs
  import opened Http
  import opened PaymentModel
  import opened Records
  import opened OrderNumbers

  /** One cart entry as the client sends it; any key may be missing. */
  datatype CartEntry = CartEntry(menuItemId: Option<int>, quantity: Option<int>, price: Option<int>, notes: Option<string>)

  datatype CheckoutRequest = CheckoutRequest(cart: Option<seq<CartEntry>>, paymentMethod: Option<string>)

  /** The reply body's `snap_token` travels next to the status code. */
  datatype CheckoutReply = CheckoutReply(code: int, state: Db, snapToken: Option<string>)

  /** `'cart' => 'required|array|min:1'` and `'payment_method' => 'required|string'`. */
  predicate CheckoutRequestValid(req: CheckoutRequest) {
    && req.cart.Some? && |req.cart.value| >= 1
    && Present(req.paymentMethod)
  }

  /** The entry carries every key the controller indexes without a default. */
  predicate Complete(e: CartEntry) {
    e.menuItemId.Some? && e.quantity.Some? && e.price.Some?
  }

  /**
   * The cart as priced lines, or None when some entry lacks `menu_item_id`,
   * `quantity` or `price` (reading a missing key raises, which rolls back).
   */
  function Lines(cart: seq<CartEntry>): (r: Option<seq<PricedLine>>)
    ensures r.Some? <==> forall i :: 0 <= i < |cart| ==> Complete(cart[i])
    ensures r.Some? ==> |r.value| == |cart|
    ensures r.Some? ==> forall i :: 0 <= i < |cart| ==>
      r.value[i] == PricedLine(cart[i].menuItemId.value, cart[i].quantity.value, cart[i].price.value, cart[i].notes)
  {
    if forall i :: 0 <= i < |cart| ==> Complete(cart[i]) then
      Some(seq(|cart|, i requires 0 <= i < |cart| && Complete(cart[i]) =>
        PricedLine(cart[i].menuItemId.value, cart[i].quantity.value, cart[i].price.value, cart[i].notes)))
    else None
  }

  /** Every line's menu item exists, or the schema does not check the reference. */
  predicate Insertable(menu: map<int, MenuItem>, lines: seq<PricedLine>, foreignKeys: bool) {
    !foreignKeys || forall k :: 0 <= k < |lines| ==> lines[k].menuItemId in menu
  }

  // ---------------------------------------------------------------------------
  // Stock

  /** PHP's `max(0, x)`. */
  function Clamp(x: int): (r: int)
    ensures r >= 0 && r >= x
    ensures r == x || r == 0
  {
    if x < 0 then 0 else x
  }

  /** One line's decrement: `$menuItem->stock = max(0, $menuItem->stock - $qty)` when the item exists. */
  function DecrementStock(menu: map<int, MenuItem>, line: PricedLine): (r: map<int, MenuItem>)
    ensures r.Keys == menu.Keys
    ensures line.menuItemId !in menu ==> r == menu
    ensures forall id :: id in menu && id != line.menuItemId ==> r[id] == menu[id]
    ensures line.menuItemId in menu ==>
      var m := menu[line.menuItemId];
      r[line.menuItemId] == m.(stock := r[line.menuItemId].stock) && r[line.menuItemId].stock >= 0
    ensures line.menuItemId in menu ==>
      var before, after := menu[line.menuItemId].stock, r[line.menuItemId].stock;
      after >= before - line.quantity && (after == before - line.quantity || after == 0)
  {
    var id := line.menuItemId;
    if id in menu then menu[id := menu[id].(stock := Clamp(menu[id].stock - line.quantity))] else menu
  }

  /** The decrements of all lines, applied in cart order. */
  function ApplyStock(menu: map<int, MenuItem>, lines: seq<PricedLine>): (r: map<int, MenuItem>)
    ensures r.Keys == menu.Keys
    ensures forall id :: id in menu ==> r[id].name == menu[id].name && r[id].price == menu[id].price
    ensures forall id :: id in menu && (forall k :: 0 <= k < |lines| ==> lines[k].menuItemId != id) ==> r[id] == menu[id]
    ensures forall id :: id in menu && (exists k :: 0 <= k < |lines| && lines[k].menuItemId == id) ==> r[id].stock >= 0
  {
    if |lines| == 0 then menu
    else
      var init := lines[..|lines| - 1];
      var before := ApplyStock(menu, init);
      var r := DecrementStock(before, lines[|lines| - 1]);
      assert forall k :: 0 <= k < |init| ==> init[k] == lines[k];
      r
  }

  /** How many units of `id` the lines ask for. */
  function QuantityFor(lines: seq<PricedLine>, id: int): int {
    SumBy(lines, (l: PricedLine) => if l.menuItemId == id then l.quantity else 0)
  }

  /**
   * With non-negative quantities, applying the lines one by one ends where
   * subtracting their total at once and clamping at zero does.
   */
  lemma {:induction false} StockAfterCheckout(menu: map<int, MenuItem>, lines: seq<PricedLine>, id: int)
    requires id in menu && menu[id].stock >= 0
    requires forall k :: 0 <= k < |lines| ==> lines[k].quantity >= 0
    ensures ApplyStock(menu, lines)[id].stock == Clamp(menu[id].stock - QuantityFor(lines, id))
  {
    if |lines| > 0 {
      var init := lines[..|lines| - 1];
      StockAfterCheckout(menu, init, id);
    }
  }

  // ---------------------------------------------------------------------------
  // The endpoint

  /** The dummy token the reply carries: "SNAP-TOKEN-" and twenty random characters in upper case. */
  function DummySnapToken(random20: string): (t: string)
    ensures |t| == 11 + |random20|
    ensures "SNAP-TOKEN-" <= t
    ensures t[11..] == ToUpper(random20)
  {
    "SNAP-TOKEN-" + ToUpper(random20)
  }

  /**
   * POST /checkout for the signed-in user. Invalid requests get 422; a cart
   * entry missing a key, a dangling menu reference under a checked foreign
   * key, or a database fault gets 500 with nothing persisted; otherwise 201.
   */
  function Checkout(db: Db, userId: nat, req: CheckoutRequest, date: Date, random10: string, random20: string,
                    foreignKeys: bool, dbFault: bool): (r: CheckoutReply)
    ensures r.code in {Created, Unprocessable, ServerError}
    ensures r.code != Created ==> r.state == db && r.snapToken.None?
    ensures r.code == Unprocessable <==> !CheckoutRequestValid(req)
    ensures r.code == ServerError <==>
      CheckoutRequestValid(req) &&
      (dbFault || Lines(req.cart.value).None? || !Insertable(db.menu, Lines(req.cart.value).value, foreignKeys))
    ensures r.code == Created ==>
      var lines := Lines(req.cart.value).value;
      var n := |db.orders|;
      && r.state.users == db.users && r.state.notifications == db.notifications
      && |r.state.orders| == n + 1 && r.state.orders[..n] == db.orders
      && var o := r.state.orders[n];
      && o.id == n + 1 && o.userId == userId && o.status == "pending"
      && o.orderNumber == CheckoutNumber(date, random10)
      && o.totalAmount == LinesTotal(lines)
      && r.state.orderItems == db.orderItems + ItemsFor(o.id, lines)
      && SubtotalSum(r.state.orderItems[|db.orderItems|..]) == o.totalAmount
      && r.state.menu == ApplyStock(db.menu, lines)
      && |r.state.payments| == |db.payments| + 1 && r.state.payments[..|db.payments|] == db.payments
      && r.state.payments[|db.payments|]
           == Payment(|db.payments| + 1, o.id, o.totalAmount, req.paymentMethod, Pending, None, None, None)
      && r.snapToken == Some(DummySnapToken(random20))
  {
    if !CheckoutRequestValid(req) then CheckoutReply(Unprocessable, db, None)
    else match Lines(req.cart.value)
      case None => CheckoutReply(ServerError, db, None)
      case Some(lines) =>
        if dbFault || !Insertable(db.menu, lines, foreignKeys) then CheckoutReply(ServerError, db, None)
        else
          var total := LinesTotal(lines);
          var o := Order(|db.orders| + 1, userId, CheckoutNumber(date, random10), total, "pending");
          var items := ItemsFor(o.id, lines);
          var p := Payment(|db.payments| + 1, o.id, total, req.paymentMethod, Pending, None, None, None);
          ItemsSumToTotal(o.id, lines);
          assert (db.orderItems + items)[|db.orderItems|..] == items;
          var db' := db.(orders := db.orders + [o], orderItems := db.orderItems + items,
                         menu := ApplyStock(db.menu, lines), payments := db.payments + [p]);
          CheckoutReply(Created, db', Some(DummySnapToken(random20)))
  }

  /** A successful checkout leaves a new order that has exactly one payment, for its total. */
  lemma CheckoutPaysOnce(db: Db, userId: nat, req: CheckoutRequest, date: Date, random10: string, random20: string,
                         foreignKeys: bool, dbFault: bool)
    requires IdsArePositions(db) && AtMostOnePaymentPerOrder(db.payments)
    requires forall i :: 0 <= i < |db.payments| ==> db.payments[i].orderId <= |db.orders|
    ensures var r := Checkout(db, userId, req, date, random10, random20, foreignKeys, dbFault);
      && IdsArePositions(r.state)
      && AtMostOnePaymentPerOrder(r.state.payments)
      && (r.code == Created ==>
            var o := r.state.orders[|db.orders|];
            && PaymentOfOrder(r.state.payments, o.id) == Some(|db.payments|)
            && r.state.payments[|db.payments|].amount == o.totalAmount)
  {
    var r := Checkout(db, userId, req, date, random10, random20, foreignKeys, dbFault);
    if r.code == Created {
      var o := r.state.orders[|db.orders|];
      assert forall i :: 0 <= i < |db.payments| ==> r.state.payments[i] == db.payments[i];
      assert forall i :: 0 <= i < |db.orders| ==> r.state.orders[i] == db.orders[i];
      assert forall i :: 0 <= i < |db.payments| ==> r.state.payments[i].orderId != o.id;
    }
  }

  /** The checkout scenario: two Kopi Susu at 15000 paid in cash. */
  lemma CheckoutScenario(date: Date, random10: string, random20: string)
    ensures
      var db := Db([], map[1 := MenuItem("Kopi Susu", 15000, 50)], [], [], [], []);
      var req := CheckoutRequest(Some([CartEntry(Some(1), Some(2), Some(15000), None)]), Some("cash"));
      var r := Checkout(db, 7, req, date, random10, random20, true, false);
      && r.code == Created
      && r.state.orders[0].totalAmount == 30000
      && |r.state.orderItems| == 1 && r.state.orderItems[0].subtotal == 30000
      && r.state.menu[1].stock == 48
      && |r.state.payments| == 1 && IsPending(r.state.payments[0])
  {
    assert "cash"[0] !in TrimChars;
    var cart := [CartEntry(Some(1), Some(2), Some(15000), None)];
    var lines := Lines(cart).value;
    assert lines == [PricedLine(1, 2, 15000, None)];
    var amount := (l: PricedLine) => LineAmount(l.price, l.quantity);
    assert lines[..0] == [];
    assert SumBy(lines, amount) == SumBy(lines[..0], amount) + amount(lines[0]);
    assert LinesTotal(lines) == 30000;
  }
}

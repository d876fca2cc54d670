# cozy_cafe order and payment bookkeeping in Dafny

This project models the cafe's order and payment bookkeeping as pure functions over an in-memory database (`Records.Db`: users, menu items, orders, order lines, payments, notifications). It covers these server operations:

- the two ways an order is placed: the checkout (`CheckoutController.Checkout`) and the order endpoint with admin notifications (`OrderController.Store`);
- the order detail that obtains a payment-gateway token (`OrderController.Show`);
- the payment endpoints: manual creation, the admin status override, the status update and the webhook handler (`PaymentController`). Two routes reach `updatePaymentStatus`: the gateway's public POST /midtrans/webhook (cafe-api/routes/api.php:19) and POST /payment/update-status, which sits inside the `auth:sanctum` group (cafe-api/routes/api.php:40 and 69). The payment-finish page posts to the second route with plain `axios` and no bearer token (PaymentFinish.jsx:29-36), so its call most likely gets 401 before the controller runs. No route reaches `handleWebhook`; it is modelled as written, for the day it is routed;
- the review endpoints (`ReviewController`).

On the client side it models:

- the shopping cart (`Cart`);
- the optimistic cache updates for orders, payments and notifications (`ClientCache`);
- the admin review list's search, sort and truncation (`AdminReviews`).

Each endpoint returns a `Reply` made of an HTTP status code and the database state after the request. Every error path leaves the state unchanged, as the source's transactions and early returns do, with one exception: `updatePaymentStatus` has no transaction, so a 500 it answers after inserting a missing payment keeps that row (`PaymentController.UpdatePaymentStatusAsWritten`, `PaymentController.SettlementWithoutPaymentTypeFails`).

Module layout, one file each: `Wrappers` (Option), `Http` (status codes, `Reply`), `Strings` (PHP and JavaScript string helpers), `Seqs` (first-match lookup, filter, sum, in-place map, stable sort), `PaymentModel`, `Records`, `OrderNumbers`, `PaymentController`, `CheckoutController`, `OrderController`, `ReviewController`, `Cart`, `ClientCache`, `AdminReviews`.

Inputs the source gets from its environment become parameters:

- the clock (`now`, `time`, `date`);
- the random strings (`random10`, `random20`, `uniqid`);
- the payment gateway's token or failure (`gateway`);
- whether a database write throws (`dbFault`);
- whether `order_items.menu_item_id` carries a foreign key (`foreignKeys`; the migrations are not part of this model);
- whether a client HTTP call was accepted (`accepted`).

Three behaviours of the code worth knowing:

- Checkout does not check that a cart line's menu item exists. A missing item is skipped when stock is decremented, and the line is rejected only by the foreign key.
- The order endpoint prices lines from the menu, but the checkout trusts the price the client sends.
- Order status is a free string (`updateStatus` accepts any value that is not blank).

## Model

| member | source | states |
|---|---|---|
| PaymentModel.NewPayment | cafe-api/app/Models/Payment.php:25-31 | a payment created with only its order and amount is a pending "qris" payment with no token, transaction id or paid-at |
| PaymentModel.ParseStatus | cafe-api/app/Http/Controllers/API/PaymentController.php:97-99 | the `in:pending,paid,failed` rule: exactly those three texts are accepted, and each is the stored name of the status it yields |
| PaymentModel.ParseStatusName | cafe-api/app/Models/Payment.php:40-53 | printing and then parsing a status gives it back |
| Records.ItemsFor | cafe-api/app/Http/Controllers/API/CheckoutController.php:45-53 | one order line per cart line, for the order, with its menu item, quantity, captured price and notes, and subtotal = price × quantity |
| Records.ItemsSumToTotal | cafe-api/app/Http/Controllers/API/CheckoutController.php:31-53 | the subtotals of the created order lines add up to the order's total |
| OrderNumbers.YmdRoundTrip | cafe-api/app/Http/Controllers/API/CheckoutController.php:34 | the eight-digit `Ymd` text of a valid date reads back as that date |
| OrderNumbers.CheckoutNumberShape | cafe-api/app/Http/Controllers/API/CheckoutController.php:34 | a checkout order number is "ORD-", eight digits, "-", then ten upper-case letters or digits, 23 characters in all |
| OrderNumbers.GeneratedNumbers | cafe-api/app/Http/Controllers/API/OrderController.php:65 | both generators produce numbers that start with "ORD-" |
| OrderNumbers.GatewayOrderIdNotGenerated | cafe-api/app/Http/Controllers/API/OrderController.php:168 | the gateway id "order-{id}-{time}" never has the shape of an order number |
| PaymentController.Store | cafe-api/app/Http/Controllers/API/PaymentController.php:37-74 | 422 exactly when validation fails; 400 exactly when the order already has a payment; otherwise one pending payment for the order's total, with the request's method and transaction id, is appended and nothing else changes |
| PaymentController.StoreKeepsOnePaymentPerOrder | cafe-api/app/Http/Controllers/API/PaymentController.php:54-59 | the duplicate guard keeps at most one payment per order |
| PaymentController.UpdateStatus | cafe-api/app/Http/Controllers/API/PaymentController.php:95-129 | 422 exactly for a status outside pending/paid/failed; 404 exactly for an unknown payment; 500 with no change exactly when "paid" is asked for a payment whose order is missing; otherwise only that payment's status changes; "paid" stamps paid-at and moves its order, and only it, to "processing" |
| PaymentController.PollingBucket | cafe-api/app/Http/Controllers/API/PaymentController.php:183-212 | "settlement" settles, "pending" stays pending, "deny", "expire" and "cancel" fail, and every other status is ignored |
| PaymentController.WebhookRefinesPolling | cafe-api/app/Http/Controllers/API/PaymentController.php:262-301 | the webhook classifies every status as polling does, except that "capture" settles only when the fraud status is "accept" |
| PaymentController.EnsurePayment | cafe-api/app/Http/Controllers/API/PaymentController.php:168-177 | after the step the order has a payment; an existing one is left alone, and a missing one is appended pending for the order total, with `payment_type ?? 'midtrans'` as its method and the supplied transaction id |
| PaymentController.ReconcileSetsStatus | cafe-api/app/Models/Payment.php:40-53 | after a reconciliation `isPaid` holds exactly when the status settled, `isPending` exactly when it stayed pending and `isFailed` exactly when it failed; an ignored status keeps the payment's status |
| PaymentController.Reconcile | cafe-api/app/Http/Controllers/API/PaymentController.php:168-212 | the order's payment and status move together to the pair the bucket prescribes; only settlement writes the method and paid-at; the transaction id follows the path's rule (polling keeps the stored one when none is sent, the webhook overwrites); every other column of the payment, every other order and payment, and the other tables are unchanged |
| PaymentController.UpdatePaymentStatus | cafe-api/app/Http/Controllers/API/PaymentController.php:153-222 | the poll with the payment it creates updated in place (the cached-relation fix, see Findings): 422 exactly when order_id or transaction_status is missing or blank; 404 exactly when no order has the whole order_id as its number; 500 exactly for a "settlement" without a payment_type key, after the missing payment, if any, has been inserted; otherwise the order is reconciled with the polled status |
| PaymentController.UpdatePaymentStatusAsWritten | cafe-api/app/Http/Controllers/API/PaymentController.php:153-222 | the poll as written: the same 422 and 404; 500 exactly for a "settlement" without a payment_type key or, on an order that had no payment, for every status that writes the payment, in both cases with the missing payment inserted and kept; otherwise the order is reconciled |
| PaymentController.CachedRelationAgrees | cafe-api/app/Http/Controllers/API/PaymentController.php:169-179 | the as-written poll answers exactly as the fixed one except on an order without a payment and a status that writes it, where it answers 500 with only the created row added |
| PaymentController.FirstPollWithoutPaymentFails | cafe-api/app/Http/Controllers/API/PaymentController.php:179-203 | a first "pending" update for an order with no payment answers 500 as written, with the order untouched and a pending payment left, where the fixed poll answers 200 |
| PaymentController.RetryAfterCachedRelationCompletes | cafe-api/app/Http/Controllers/API/PaymentController.php:169-212 | after that 500, the same notification delivered again leaves exactly what the fixed poll leaves after one delivery |
| PaymentController.WebhookKey | cafe-api/app/Http/Controllers/API/PaymentController.php:241 | the lookup key is the longest prefix of the gateway id without a '-': the whole id, or the text before its first '-' |
| PaymentController.ReconcileByKey | cafe-api/app/Http/Controllers/API/PaymentController.php:243-301 | 404 exactly when no order has the key as its number, otherwise that order is reconciled with the webhook's bucket |
| PaymentController.HandleWebhook | cafe-api/app/Http/Controllers/API/PaymentController.php:226-304 | 400 exactly for a missing or falsy order_id; 404 exactly when the derived key names no order; otherwise the order is reconciled, overwriting the transaction id |
| PaymentController.ReconciledKeepsNumbers | cafe-api/app/Http/Controllers/API/PaymentController.php:168-212 | reconciliation changes no order number, so lookups by number are unaffected |
| PaymentController.ReconcileIdempotent | cafe-api/app/Http/Controllers/API/PaymentController.php:168-212 | applying a bucket again, later, leaves what one application at that later time leaves; outside settlement (which restamps paid-at) the second application changes nothing |
| PaymentController.PollingIdempotent | cafe-api/app/Http/Controllers/API/PaymentController.php:153-222 | repeating a polled update, later, leaves the state one update at that time leaves; outside settlement it returns the first reply and state |
| PaymentController.WebhookIdempotent | cafe-api/app/Http/Controllers/API/PaymentController.php:226-304 | a notification delivered again, later, leaves the state one delivery at that time leaves; outside settlement it returns the first reply and state |
| PaymentController.LatePendingRevertsSettlement | cafe-api/app/Http/Controllers/API/PaymentController.php:194-202 | a "pending" poll after a "settlement" puts the paid payment back to pending and the processing order back to "pending" |
| PaymentController.WebhookNeverFindsGeneratedOrder | cafe-api/app/Http/Controllers/API/PaymentController.php:241 | when every order number has the generated "ORD-…" shape, the webhook answers 400 or 404 and changes nothing |
| PaymentController.WebhookKeyOfExample | cafe-api/app/Http/Controllers/API/PaymentController.php:241 | "ORD-20240101-ABC-1700000000" yields the key "ORD" |
| PaymentController.IntendedWebhookKey | cafe-api/app/Http/Controllers/API/PaymentController.php:240-241 | the intended key is the text before the gateway id's last '-', or the whole id when it has no '-' |
| PaymentController.HandleWebhookIntended | cafe-api/app/Http/Controllers/API/PaymentController.php:226-304 | the webhook with the intended key: the same codes and reconciliation as the webhook, looked up by the text before the timestamp |
| PaymentController.IntendedWebhookKeyRecoversNumber | cafe-api/app/Http/Controllers/API/PaymentController.php:240-241 | the intended key of "{order_number}-{timestamp}" is the order number, whatever it contains |
| PaymentController.IntendedWebhookKeyOfExample | cafe-api/app/Http/Controllers/API/PaymentController.php:240-241 | the intended key of "ORD-20240101-ABC-1700000000" is "ORD-20240101-ABC" |
| PaymentController.IntendedWebhookFindsOrder | cafe-api/app/Http/Controllers/API/PaymentController.php:240-247 | a notification for an order's "{number}-{time}" id reaches and reconciles that order |
| PaymentController.SettlementWithoutPaymentTypeFails | cafe-api/app/Http/Controllers/API/PaymentController.php:183-187 | a "settlement" request without a payment_type key, reaching the controller through either route, gets 500, yet a payment created for an order that had none stays stored |
| PaymentController.UpdatePaymentStatusIntended | cafe-api/app/Http/Controllers/API/PaymentController.php:153-222 | the corrected poll: the same 422 and reconciliation; the order is looked up by the whole id and, only when no order has it, by the id without its trailing "-{timestamp}"; 404 exactly when both lookups fail; never 500; and a settlement without payment_type keeps the stored method |
| PaymentController.PollLookup | cafe-api/app/Http/Controllers/API/PaymentController.php:162 | the corrected lookup finds the order the whole id names when there is one, otherwise the order named by the id without its trailing "-{timestamp}" |
| PaymentController.IntendedPollAgrees | cafe-api/app/Http/Controllers/API/PaymentController.php:153-222 | wherever the poll as written answers 200 or 422 the corrected poll gives the same reply and state; its 500 becomes 200; its 404 stays 404 exactly when the cut-back id names no order either |
| PaymentController.IntendedPollFindsOrder | cafe-api/app/Http/Controllers/API/PaymentController.php:162-191 | a poll for an order's "{number}-{time}" id reaches that order when no order has the whole id as its number; a settlement without payment_type leaves it paid, stamped and processing, with its stored method |
| PaymentController.GatewayOrderIdNeverResolves | cafe-api/app/Http/Controllers/API/OrderController.php:168 | with generated order numbers, neither the poll nor the webhook finds the order behind the gateway id `show` sends |
| CheckoutController.Lines | cafe-api/app/Http/Controllers/API/CheckoutController.php:45-53 | the cart is read into priced lines exactly when every entry carries the keys read without default, one line per entry with its fields |
| CheckoutController.Clamp | cafe-api/app/Http/Controllers/API/CheckoutController.php:58 | `max(0, x)`: the result is x or 0, never negative and never below x |
| CheckoutController.DecrementStock | cafe-api/app/Http/Controllers/API/CheckoutController.php:56-60 | one line lowers its own item's stock by the quantity, clamped at zero; other items, and a missing item, are untouched |
| CheckoutController.ApplyStock | cafe-api/app/Http/Controllers/API/CheckoutController.php:45-61 | the menu keeps its items, names and prices; items no line mentions are unchanged; every mentioned item ends with non-negative stock |
| CheckoutController.StockAfterCheckout | cafe-api/app/Http/Controllers/API/CheckoutController.php:56-60 | with non-negative quantities, an item's stock ends at max(0, stock − the total quantity the cart asks for it) |
| CheckoutController.DummySnapToken | cafe-api/app/Http/Controllers/API/CheckoutController.php:65 | the token is "SNAP-TOKEN-" followed by the twenty random characters upper-cased |
| CheckoutController.Checkout | cafe-api/app/Http/Controllers/API/CheckoutController.php:17-95 | 422 exactly when validation fails, a missing, empty or blank required string included; 500, with everything rolled back, exactly when an entry lacks a key, a line breaks the foreign key or the database throws; on 201 a pending order with a generated number, its lines summing to the total, the stock decrements, and one pending payment for the total with the chosen method |
| CheckoutController.CheckoutPaysOnce | cafe-api/app/Http/Controllers/API/CheckoutController.php:68-75 | checkout keeps ids equal to positions and at most one payment per order, and the new order has exactly one payment |
| CheckoutController.CheckoutScenario | cafe-api/app/Http/Controllers/API/CheckoutController.php:31-75 | two Kopi Susu at 15000 give a 30000 order, lines summing to 30000, stock 50 → 48, and a pending payment of 30000 |
| OrderController.PriceLines | cafe-api/app/Http/Controllers/API/OrderController.php:58-87 | lines are priced from the menu, not the request: each line's price is its menu item's price |
| OrderController.Admins | cafe-api/app/Http/Controllers/API/OrderController.php:90 | the notified users are exactly the users whose role is "admin", each as often as in the table, in table order |
| OrderController.DescriptionParts | cafe-api/app/Http/Controllers/API/OrderController.php:93-97 | one "name × qty" part per requested line, in request order |
| OrderController.DescriptionIsJoin | cafe-api/app/Http/Controllers/API/OrderController.php:93-98 | trimming the trailing ", " off the accumulated parts is joining them with ", " |
| OrderController.AdminNotices | cafe-api/app/Http/Controllers/API/OrderController.php:101-107 | one unread notification per admin, with the same title and message, in admin order |
| OrderController.Store | cafe-api/app/Http/Controllers/API/OrderController.php:43-126 | 422 exactly on invalid lines; 500 with rollback exactly on a database fault; otherwise a pending order for the menu-priced total, its lines summing to it, and one notification per admin naming the order and its items; menu and payments untouched |
| OrderController.StoreCapturesMenuPrices | cafe-api/app/Http/Controllers/API/OrderController.php:76-87 | each created line carries its menu item's price at the time of ordering and subtotal = price × quantity |
| OrderController.StoreScenario | cafe-api/app/Http/Controllers/API/OrderController.php:58-62 | an order of two 15000 items and one 20000 item totals 50000 |
| OrderController.Show | cafe-api/app/Http/Controllers/API/OrderController.php:131-229 | 404 exactly when the order is unknown or hidden from the viewer; the stored token is returned without a gateway call when there is one; otherwise a line naming a missing menu item answers 500 with no gateway call and no change; otherwise the gateway is asked with "order-{id}-{time}" and the total, and a new pending payment holding its token is appended; 500 with no change when the gateway fails |
| OrderController.ShowHidesOthersOrders | cafe-api/app/Http/Controllers/API/OrderController.php:135-148 | a customer asking for someone else's order gets 404 and nothing changes |
| OrderController.ShowDuplicatesPayment | cafe-api/app/Http/Controllers/API/OrderController.php:150-214 | an order whose payment has no token, and whose lines all name existing menu items, gets a second payment on its first `show` |
| OrderController.CheckoutThenShowDuplicates | cafe-api/app/Http/Controllers/API/OrderController.php:209-214 | after a checkout, the customer's first `show` of the order leaves it with two payments when every line names an existing menu item, which checked foreign keys guarantee; otherwise it answers 500 and changes nothing |
| OrderController.CheckoutLinesResolve | cafe-api/app/Http/Controllers/API/CheckoutController.php:45-53 | under checked foreign keys every line checkout creates names an item still on the menu |
| OrderController.ShowIntended | cafe-api/app/Http/Controllers/API/OrderController.php:150-214 | `show` sending "{order_number}-{time}"; the same 404 and missing-menu-item 500 as `show`; a fresh token is returned and stored exactly as the gateway gave it, on the order's existing payment with every other column and payment unchanged, or on one appended pending payment for the total when none exists |
| OrderController.ShowIntendedKeepsOnePayment | cafe-api/app/Http/Controllers/API/OrderController.php:209-214 | the intended `show` keeps at most one payment per order |
| OrderController.ShowIntendedThenReuses | cafe-api/app/Http/Controllers/API/OrderController.php:150-159 | after the intended `show` succeeds, the next `show` reuses the stored token without a gateway call and changes nothing |
| OrderController.IntendedGatewayIdReachesOrder | cafe-api/app/Http/Controllers/API/OrderController.php:168 | the gateway id the intended `show` sends leads the intended webhook back to the same order |
| OrderController.IntendedGatewayIdReachesOrderByPoll | cafe-api/app/Http/Controllers/API/OrderController.php:168 | the routed path: a status update carrying the gateway id the intended `show` sent reaches the corrected poll, which reconciles that same order, provided no order has the whole id as its number |
| OrderController.UpdateStatus | cafe-api/app/Http/Controllers/API/OrderController.php:233-248 | 422 exactly when the status is missing, empty or blank; 404 exactly for an unknown order; otherwise only that order's status changes, to the string given |
| OrderController.UpdateStatusIdempotent | cafe-api/app/Http/Controllers/API/OrderController.php:233-248 | setting the same status twice is setting it once |
| ReviewController.Store | cafe-api/app/Http/Controllers/API/ReviewController.php:27-75 | 422 exactly on invalid input; 401 exactly without a user; 500 exactly when the comment key is absent; otherwise the user's review of the item is updated in place, or a new one is appended with the next id |
| ReviewController.StorePreservesValid | cafe-api/app/Http/Controllers/API/ReviewController.php:45-74 | the upsert keeps ids unique, ratings in 1..5 and at most one review per user and item |
| ReviewController.StoreThenReviewOf | cafe-api/app/Http/Controllers/API/ReviewController.php:45-74 | after a successful store, the user's review of the item has the rating and comment just sent |
| ReviewController.StoreIdempotent | cafe-api/app/Http/Controllers/API/ReviewController.php:45-60 | sending the same review again leaves the table of the first request |
| ReviewController.StoreIntended | cafe-api/app/Http/Controllers/API/ReviewController.php:29-74 | store reading an absent comment as null: it succeeds exactly for valid input from a user, and otherwise agrees with `store` |
| ReviewController.StoreWithoutCommentFails | cafe-api/app/Http/Controllers/API/ReviewController.php:52 | as written, a valid review sent without a comment key fails with 500 and is not saved |
| ReviewController.StoreIntendedSavesWithoutComment | cafe-api/app/Http/Controllers/API/ReviewController.php:32 | the intended store saves that review with no comment |
| ReviewController.Update | cafe-api/app/Http/Controllers/API/ReviewController.php:96-123 | 404 exactly when the user owns no review with the id, checked before validation; 422 for a rating outside 1..5; otherwise only the fields sent change |
| ReviewController.UpdatePreservesValid | cafe-api/app/Http/Controllers/API/ReviewController.php:96-123 | an update keeps the table valid |
| ReviewController.Destroy | cafe-api/app/Http/Controllers/API/ReviewController.php:126-147 | 404 exactly when the user owns no review with the id; otherwise exactly that review is removed and the rest keep their order |
| ReviewController.DestroyPreservesValid | cafe-api/app/Http/Controllers/API/ReviewController.php:126-147 | a deletion keeps the table valid and leaves no review with the id |
| ReviewController.GetByMenuItem | cafe-api/app/Http/Controllers/API/ReviewController.php:150-172 | 404 exactly for an unknown item; otherwise exactly the item's reviews, newest first, with their count and rating sum |
| ReviewController.GetByMenuItemCounts | cafe-api/app/Http/Controllers/API/ReviewController.php:150-172 | the count is the number of the item's reviews in the table |
| Cart.Key | cafe_cozy_cup/src/context/CardContext.jsx:12 | the key is `id` unless it is missing or 0, then `menu_item_id` |
| Cart.Add | cafe_cozy_cup/src/context/CardContext.jsx:9-36 | an item already in the cart gets one more unit on its line; a new one is appended with one unit; the cart stays valid |
| Cart.Decrease | cafe_cozy_cup/src/context/CardContext.jsx:40-56 | an absent item changes nothing; a line of one unit is dropped; a larger line loses one unit; the cart stays valid |
| Cart.Remove | cafe_cozy_cup/src/context/CardContext.jsx:60-62 | exactly the lines with the key are removed |
| Cart.Clear | cafe_cozy_cup/src/context/CardContext.jsx:65 | the cart is empty and totals 0 |
| Cart.AddQuantity | cafe_cozy_cup/src/context/CardContext.jsx:9-36 | adding raises the item's quantity by exactly one |
| Cart.DecreaseQuantity | cafe_cozy_cup/src/context/CardContext.jsx:40-56 | decreasing lowers the item's quantity by one, down to zero |
| Cart.AddThenDecrease | cafe_cozy_cup/src/context/CardContext.jsx:9-56 | decrease undoes add: the cart is back as it was |
| Cart.AddTotal | cafe_cozy_cup/src/context/CardContext.jsx:68 | adding raises the total by the price of the item's line |
| Cart.DecreaseTotal | cafe_cozy_cup/src/context/CardContext.jsx:68 | decreasing an item in the cart lowers the total by its price; otherwise the total is unchanged |
| Cart.RemoveTotal | cafe_cozy_cup/src/context/CardContext.jsx:68 | removing takes the item's whole line off the total |
| Cart.RemoveIdempotent | cafe_cozy_cup/src/context/CardContext.jsx:60-62 | removing twice is removing once |
| ClientCache.UpdateOrderStatus | cafe_cozy_cup/src/context/OrderPaymentsContext.jsx:54-68 | without a token, or when the call fails, nothing changes; otherwise exactly the cached orders with the id take the status |
| ClientCache.UpdatePaymentStatus | cafe_cozy_cup/src/context/OrderPaymentsContext.jsx:71-88 | once accepted, the payment with the id takes the status in the payment list and inside every order embedding it; order statuses are untouched |
| ClientCache.UpdatesIdempotent | cafe_cozy_cup/src/context/OrderPaymentsContext.jsx:54-88 | applying a status update twice is applying it once |
| ClientCache.OrderStatusKeepsMirror | cafe_cozy_cup/src/context/OrderPaymentsContext.jsx:54-68 | when the cached orders mirror the server's, they still do after the server's update and the client's |
| ClientCache.PaymentStatusKeepsMirror | cafe_cozy_cup/src/context/OrderPaymentsContext.jsx:71-88 | when the cached payments mirror the server's, they still do after an admin status change |
| ClientCache.PaidLeavesCachedOrderBehind | cafe_cozy_cup/src/context/OrderPaymentsContext.jsx:79-82 | marking a payment paid moves its order to "processing" on the server while the cached order keeps its old status |
| ClientCache.MarkAsRead | cafe_cozy_cup/src/context/NotificationContext.jsx:26-47 | once accepted, exactly the notifications with the id are read; nothing else changes |
| ClientCache.MarkAsReadIdempotentAndCommutes | cafe_cozy_cup/src/context/NotificationContext.jsx:39-43 | marking twice is marking once, and two marks commute |
| ClientCache.MarkAsReadLowersUnread | cafe_cozy_cup/src/context/NotificationContext.jsx:39-43 | marking never raises the unread count |
| AdminReviews.FilterRows | cafe_cozy_cup/src/pages/Admin/Reviews.jsx:29-33 | a row is kept exactly when the reviewer's or the item's name contains the search, ignoring case; no row is invented, and the kept rows stay in table order |
| AdminReviews.SearchIgnoresCase | cafe_cozy_cup/src/pages/Admin/Reviews.jsx:31-32 | searching for the upper-cased term keeps the same rows |
| AdminReviews.EmptySearchKeepsLinked | cafe_cozy_cup/src/pages/Admin/Reviews.jsx:29-33 | the empty search keeps every row that has a user or a menu item |
| AdminReviews.ParseSortMode | cafe_cozy_cup/src/pages/Admin/Reviews.jsx:34-42 | "newest", "oldest", "highest" and "lowest" each select their own order, and any other value selects none |
| AdminReviews.SortRows | cafe_cozy_cup/src/pages/Admin/Reviews.jsx:34-42 | the rows are permuted into date or rating order, descending or ascending as named, and the sort is stable: rows with equal dates or ratings keep their relative order; any other mode keeps them as they are |
| Seqs.SortByStable | cafe_cozy_cup/src/pages/Admin/Reviews.jsx:34-42 | the sort behind every comparator is stable: the elements sharing a key come out in their original relative order |
| AdminReviews.Visible | cafe_cozy_cup/src/pages/Admin/Reviews.jsx:29-42 | the list shows exactly the matching rows, each as often as in the table: newest or oldest first by date, highest or lowest first by rating, rows with equal keys in table order, and in table order for any other sort value |
| AdminReviews.Truncate | cafe_cozy_cup/src/pages/Admin/Reviews.jsx:60-63 | "" for a falsy text, the text when it fits, else its first maxLength characters and "..." |
| AdminReviews.TruncateDefault | cafe_cozy_cup/src/pages/Admin/Reviews.jsx:60 | with the default, a text of more than 70 characters shows its first 70 and then "..." |
| AdminReviews.TruncateShowsPrefix | cafe_cozy_cup/src/pages/Admin/Reviews.jsx:62 | what is shown always begins with the text's own start |

## Left out

- The Midtrans Snap client (`getSnapToken`) is not modelled. Its token or failure is the `gateway` parameter. `show` sends only the order id and gross amount; customer details, item details, enabled payments and callbacks are not modelled.
- Clock and randomness (`now()`, `time()`, `date('Ymd')`, `Str::random`, `uniqid`) are parameters.
- Transactions are modelled as all-or-nothing. A thrown database exception is the `dbFault` parameter. Concurrent requests and the stock race between them are not modelled.
- Money is an integer. Decimal columns and the `(int)` casts of amounts and prices are identity. Floating point is not modelled.
- PaymentController.UpdatePaymentStatus: updates the payment it has just created. As written, Eloquent keeps the `payment` relation it loaded as null at line 169, so `$order->payment` at line 179 is always null after `Payment::create`, and every status that writes the payment answers 500 with the new row kept. UpdatePaymentStatusAsWritten models that; UpdatePaymentStatus and the corrected poll model the evident intent.
- PaymentController.HandleWebhook: updates the payment it has just created. As written, the relation loaded as null at line 250 is re-read at line 260, so for an order without a payment every non-ignored status answers 500 after the insert. Only the poll's as-written form (UpdatePaymentStatusAsWritten) models this; the webhook is unrouted and its key never finds a generated order.
- PaymentController.UpdatePaymentStatus: the JSON body's `order` and `payment` are not modelled, only the status code and the state.
- ReviewController.GetByMenuItem: reports the rating sum instead of `round(avg('rating'), 1)`, because floating-point rounding is not modelled.
- Letter case is ASCII only (`toLowerCase`, `strtoupper`). There is no Unicode case mapping.
- AdminReviews.SortRows: dates are numeric timestamps. `new Date(...)` parsing and NaN comparisons are not modelled.
- AdminReviews.Truncate: `maxLength` is a natural number. Negative `slice` arguments are not modelled.
- AdminReviews.Truncate: lengths count Unicode scalar values. JavaScript's `length` and `slice` count UTF-16 code units, so the two differ on text outside the Basic Multilingual Plane. For example, 36 emoji are cut after 35 of them in the browser, but not cut at all here.
- AdminReviews.TruncateDefault: counts Unicode scalar values, not UTF-16 code units, for the same reason as Truncate.
- Read-only list endpoints are not modelled: the order, payment and review `index`, the single-record `show`, `getByOrder` and `getByUser`. NotificationController, authentication and routing are also out. The caller's identity is a parameter.
- Laravel's input middleware (empty string to null, trimming) is only partly modelled. A `required` string that is missing, empty or made only of `trim`'s characters is rejected, as the middleware and the rule together do. Trimming of the other strings is not modelled: they are stored as received.
- JSON bodies other than the status code, the state and the snap token are not modelled.
- CheckoutController.StockAfterCheckout: states the closed form only for non-negative quantities. The source does not validate quantities; for any quantity, DecrementStock states one line's effect, max(0, stock − quantity), and ApplyStock applies the lines in cart order.
- The client's polling interval and toast messages are not modelled.
- OrderController.Show: the gateway request's `customer_details` read `$order->user`; an order whose user row is gone is not modelled, since no modelled operation deletes users. A line whose menu item is gone is modelled: 500 before the gateway call.
- The payment-finish page's own call is not modelled: it posts to a route behind `auth:sanctum` without a bearer token. The corrected poll's properties are stated for any request that reaches the controller.

## Findings

| source | as written | input that shows it | evidently intended | confidence | as-written member | corrected member |
|---|---|---|---|---|---|---|
| cafe-api/app/Http/Controllers/API/PaymentController.php:241 | `handleWebhook` looks the order up by `explode('-', $orderId)[0]`, the text before the first '-' | gateway id "ORD-20240101-ABC-1700000000" gives the key "ORD", which no order has, so the reply is 404; no route reaches `handleWebhook` today, so this shows once it is routed | the text before the trailing "-{timestamp}", as the comment above the line says | high, not executed | PaymentController.WebhookNeverFindsGeneratedOrder | PaymentController.HandleWebhookIntended |
| cafe-api/app/Http/Controllers/API/OrderController.php:168 | `show` sends the gateway the id "order-{id}-{time}" | order 5 at time 1700000000 is sent as "order-5-1700000000"; neither the poll (looking up the whole id) nor the webhook (looking up "order") finds an order | "{order_number}-{time}", the shape the webhook's comment describes; the poll, which both routes reach, must then fall back to the id without its "-{time}" when the whole id names no order, as PaymentController.UpdatePaymentStatusIntended does (OrderController.IntendedGatewayIdReachesOrderByPoll) | medium, not executed | PaymentController.GatewayOrderIdNeverResolves | OrderController.ShowIntended |
| cafe-api/app/Http/Controllers/API/OrderController.php:209-214 | when the order's payment has no token, `show` creates a new payment instead of storing the token on the existing one | checkout creates a payment with no token; the first `show` of that order leaves it with two payments | store the token on the existing payment and create one only when there is none | high, not executed | OrderController.CheckoutThenShowDuplicates | OrderController.ShowIntended |
| cafe-api/app/Http/Controllers/API/ReviewController.php:52 | `store` reads `$validated['comment']`, which is absent when the optional comment is not sent | {menu_item_id: 1, rating: 5} from a signed-in user gives 500 and saves nothing | treat an absent comment as null, as the `nullable` rule allows | medium, not executed | ReviewController.StoreWithoutCommentFails | ReviewController.StoreIntended |
| cafe-api/app/Http/Controllers/API/PaymentController.php:179 | after creating a missing payment, `updatePaymentStatus` re-reads `$order->payment`, which Eloquent has cached as null at line 169 | {order_id: the number of an order with no payment, transaction_status: "pending"} gets 500, leaving the order's status unchanged and a new pending payment behind; the gateway's redelivery then succeeds | update the payment just created, for instance by keeping the model `Payment::create` returns | high, not executed | PaymentController.FirstPollWithoutPaymentFails | PaymentController.UpdatePaymentStatus |
| cafe-api/app/Http/Controllers/API/PaymentController.php:186 | the settlement branch reads `$validated['payment_type']` without a default; the key is absent when the nullable field is not sent | {order_id: an existing order number, transaction_status: "settlement"} with no payment_type, sent to the public POST /midtrans/webhook or by an authenticated caller to POST /payment/update-status, gets 500 (the payment-finish page posts exactly this body, but without a bearer token, so it most likely gets 401 first); for an order with no payment, the row inserted at lines 169-177 stays, since there is no transaction | keep the stored method when none is sent, as the `transaction_id` line below it does | medium, not executed | PaymentController.SettlementWithoutPaymentTypeFails | PaymentController.UpdatePaymentStatusIntended |

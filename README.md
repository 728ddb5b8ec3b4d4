# Marketplace orders and payments, modelled in Dafny

This project models the order and payment core of the marketplace backend (a Spring service).
It covers:

- **Orders** (`OrderService`): checkout from a cart, the stock check, status updates, cancellation
  with restocking, deletion, shipping cost, stock decrement and approval of a paid order.
- **Order views** (`OrderResponseDTO.from`, `OrderItemResponseDTO.from`): the response records,
  whose subtotals, total and item count are recomputed from the order lines.
- **Payments** (`PaymentService`):
  - the webhook signature check;
  - creating a charge at the payment gateway and saving the payment;
  - the webhook notification;
  - the periodic reconciliation of pending payments;
  - the mapping of gateway statuses and payment-method ids.
- **The payment webhook endpoint** (`PaymentController.handleWebhook` and `checkPaymentStatus`): it
  fetches the payment over HTTP and approves its order.
- **The payment-success listener** (`PaymentListener.handlePaymentSuccess`): it marks the order PAID
  and mails the buyer.

How the model is built:

- **State.** The database is a value (`Domain.Db`): users, products, carts, orders and payments,
  with the foreign keys and generated identities the schema enforces. `Domain.Valid` also
  requires each stored line subtotal to be its unit price times its quantity, which every
  operation keeps although no schema rule enforces it.
- **Pure specification.** Each operation is first a pure function of the state before it. It
  returns the result (or the exception, as a `Result`) and the state after it. Those functions are
  in `OrderLifecycle`, `PaymentLogic`, `PaymentListener` and `PaymentController`. The payment
  functions work on a `Ledger`: the database together with the events published to the
  payment-success queue.
- **Imperative services.** The services are then written imperatively, over a mutable `Store`
  class, an `EventQueue` and a `Mailer`, step by step as the Java code updates its entities. Each
  method is proved to end exactly in the state its specification function gives.
- **Transactions.** A `@Transactional` method that throws is rolled back, so it leaves the state
  unchanged.
- **Numbers.** Money is `real`, which is exact like `BigDecimal` addition and multiplication. Times
  are integer seconds. `Long` parsing and rendering follow `Long.parseLong` and `Long.toString`
  for ASCII digits, including the sign and the 64-bit range.
- **Oracles.** Everything outside the process is a parameter:
  - the payment gateway's create and get calls;
  - the HTTP fetch of the controller;
  - the keyed hash (HMAC-SHA256, RFC 2104) and `String.getBytes`;
  - the outcome of sending the confirmation e-mail;
  - the current time.

The lemmas also state, as proved facts, several behaviours of the code that its comments and
names do not announce:

- A checkout followed by an approval takes the ordered quantities out of stock twice
  (`CheckoutThenApproveTakesStockTwice`).
- Two cart rows for the same product can oversell it (`CheckoutCanOversellRepeatedProduct`).
- Cancelling twice restocks twice (`CancelTwiceRestocksTwice`).
- The status update lets a PENDING order jump to DELIVERED (`UpdateStatusSkipsStates`).
- The card-token rule is case-sensitive while the method mapping is not (`CardRuleIsCaseSensitive`).
- A webhook id must match the stored text exactly (`WebhookIdMustMatchText`).
- The listener pays a canceled order (`PaysCanceledOrder`).
- When the listener runs first, the approval takes no stock (`MessageFirstSkipsApprovalStock`).
- The controller approves on an unsigned notification (`UnsignedNotificationApproves`).
- A redelivered message mails the buyer again (`RedeliveryMailsAgain`).

## Model

| member | source | states |
|---|---|---|
| Common.ParseLong | backend/src/main/java/com/example/marketPlace/service/PaymentService.java:159 | A string parses iff, after an optional `-` or `+`, it is one or more digits whose signed value is in the 64-bit range. The value is then the digits' decimal value, negated after a `-`. Any other input throws, which the model writes as None. |
| Common.DecimalDigits | backend/src/main/java/com/example/marketPlace/service/PaymentService.java:236 | The decimal rendering of a number consists of digits only and reads back as that number. |
| Common.ParseLongToString | backend/src/main/java/com/example/marketPlace/service/PaymentService.java:118-120 | An order id rendered with `toString` parses back to the same id, for every `Long`. |
| Common.ToLower | backend/src/main/java/com/example/marketPlace/service/PaymentService.java:279 | `toLowerCase` keeps the length and lowers each character independently. |
| Common.ToLowerIdempotent | backend/src/main/java/com/example/marketPlace/service/PaymentService.java:279 | Lower-casing twice is lower-casing once. |
| Common.TrimStart | backend/src/main/java/com/example/marketPlace/service/PaymentService.java:54-55 | `trim` drops exactly the leading characters at or below U+0020. |
| Common.TrimEnd | backend/src/main/java/com/example/marketPlace/service/PaymentService.java:54-55 | `trim` drops exactly the trailing characters at or below U+0020. |
| Common.TrimOfTrimmed | backend/src/main/java/com/example/marketPlace/service/PaymentService.java:54-55 | A string without surrounding blanks is left unchanged by `trim`. |
| StockLedger.CartLines | backend/src/main/java/com/example/marketPlace/service/OrderService.java:58-62 | Each cart row gives one stock movement: its product and its quantity, in cart order. |
| StockLedger.ItemLines | backend/src/main/java/com/example/marketPlace/service/OrderService.java:215-218 | Each order line gives one stock movement: its product and its quantity, in order. |
| StockLedger.Adjust | backend/src/main/java/com/example/marketPlace/service/OrderService.java:76 | One stock update changes that product's stock by exactly the delta. No other product changes, and the catalogue is otherwise untouched. |
| StockLedger.Decremented | backend/src/main/java/com/example/marketPlace/service/OrderService.java:74-77 | Taking lines out of stock changes stock quantities only. |
| StockLedger.Restocked | backend/src/main/java/com/example/marketPlace/service/OrderService.java:215-219 | Putting lines back changes stock quantities only. |
| StockLedger.DecrementedStock | backend/src/main/java/com/example/marketPlace/service/OrderService.java:74-77 | Conservation: each product's stock drops by exactly the total quantity the lines name for it. |
| StockLedger.RestockedStock | backend/src/main/java/com/example/marketPlace/service/OrderService.java:215-219 | Conservation: each product's stock rises by exactly the total quantity the lines name for it. |
| StockLedger.RestockUndoesDecrement | backend/src/main/java/com/example/marketPlace/service/OrderService.java:215-225 | Restocking the same lines restores the catalogue exactly. |
| StockLedger.ValidateStock | backend/src/main/java/com/example/marketPlace/service/OrderService.java:99-110 | The check passes iff no cart row asks for more than its product's stock before the order. Otherwise it reports the first short row, with its product name, the stock and the requested quantity. |
| StockLedger.CheckedDecrement | backend/src/main/java/com/example/marketPlace/service/OrderService.java:259-273 | The batch succeeds iff no line drives a stock negative given the lines before it. On success the result is the plain decrement and every touched stock is non-negative. On failure it names a product of the lines. |
| StockLedger.AdmitsDistinct | backend/src/main/java/com/example/marketPlace/service/OrderService.java:264-272 | With distinct products, the decrement succeeds iff each product's stock covers its line (both directions). |
| StockLedger.CheckedDecrementFirstFailure | backend/src/main/java/com/example/marketPlace/service/OrderService.java:264-269 | The batch fails at the first line that finds too little stock, and that line's product is the one reported. |
| OrderViews.ItemViews | backend/src/main/java/com/example/marketPlace/dto/OrderItemResponseDTO.java:15-27 | One item view per order line, in order, each built by `OrderItemResponseDTO.from`. |
| OrderViews.StoredItemViews | backend/src/main/java/com/example/marketPlace/service/OrderService.java:276-290 | The item views `toDTO` builds: one per line, in order, showing the stored subtotal. |
| OrderViews.StoredItemViewsAgree | backend/src/main/java/com/example/marketPlace/service/OrderService.java:276-290 | When stored subtotals are unit price times quantity, `toDTO`'s item views equal the recomputed ones. |
| OrderViews.OrderViewOf | backend/src/main/java/com/example/marketPlace/dto/OrderResponseDTO.java:28-46 | The order view copies the order's id, status and date, and the buyer's id, name and e-mail. It shows the given item views unchanged. The shipping cost is the order's cost, or 0 when that cost is null. |
| OrderViews.SubtotalSumOfItemViews | backend/src/main/java/com/example/marketPlace/dto/OrderResponseDTO.java:24-26 | The views' subtotals add up to the lines' amount at their frozen prices, whatever the current product prices or stored subtotals. |
| OrderViews.QuantitySumOfItemViews | backend/src/main/java/com/example/marketPlace/dto/OrderResponseDTO.java:32-34 | The views' quantities add up to the lines' quantities. |
| OrderViews.OrderViewTotals | backend/src/main/java/com/example/marketPlace/dto/OrderResponseDTO.java:22-47 | The view's total is the lines' amount plus the shipping cost, counting a null cost as zero. The item count is the sum of quantities, and it is zero for an order without lines. |
| OrderViews.StoredSubtotalsAreLinesAmount | backend/src/main/java/com/example/marketPlace/service/OrderService.java:248-250 | The sum of stored subtotals equals the lines' amount whenever each stored subtotal is price times quantity. |
| OrderViews.LinesAmountNonNegative | backend/src/main/java/com/example/marketPlace/service/OrderService.java:68-72 | With non-negative prices and quantities, an order's amount is non-negative. |
| OrderViews.ItemViewUsesFrozenPrice | backend/src/main/java/com/example/marketPlace/dto/OrderItemResponseDTO.java:15-27 | An item view ignores the product's current price and the stored subtotal. It shows the frozen unit price, and its subtotal is non-negative for non-negative inputs. |
| OrderLifecycle.SnapshotItems | backend/src/main/java/com/example/marketPlace/service/OrderService.java:58-71 | Each cart row becomes an order line with the same product and quantity. The cart price becomes the unit price, and the subtotal is price times quantity. |
| OrderLifecycle.PlaceOrder | backend/src/main/java/com/example/marketPlace/service/OrderService.java:49-88 | Placing an order keeps the database consistent: foreign keys hold and identities stay fresh. |
| OrderLifecycle.WithStatus | backend/src/main/java/com/example/marketPlace/service/OrderService.java:158 | Setting an order's status keeps the database consistent. |
| OrderLifecycle.Checkout | backend/src/main/java/com/example/marketPlace/service/OrderService.java:30-97 | Each rejection happens exactly in its case: unknown user, empty cart, or some row short of stock. It succeeds iff the user is known, the cart is not empty and no row is short. A rejection changes nothing. A success places the order and returns its view. |
| OrderLifecycle.UpdateStatus | backend/src/main/java/com/example/marketPlace/service/OrderService.java:151-166 | Succeeds iff the order exists and is neither DELIVERED nor CANCELED; each rejection happens exactly in its case. On success the order takes the requested status, nothing else in the database changes, and the result is the order's view. |
| OrderLifecycle.CancelAndRestock | backend/src/main/java/com/example/marketPlace/service/OrderService.java:183-187 | The new database is the old one with only that order CANCELED and its lines put back into stock, and it stays consistent. |
| OrderLifecycle.Cancel | backend/src/main/java/com/example/marketPlace/service/OrderService.java:168-194 | Succeeds iff the order exists, the caller is its buyer and it is neither SHIPPED nor DELIVERED. A success ends in `CancelAndRestock`'s state (only that order CANCELED and its lines restocked). A failure changes nothing. |
| OrderLifecycle.Delete | backend/src/main/java/com/example/marketPlace/service/OrderService.java:196-206 | Succeeds iff the order exists, is CANCELED and no payment refers to it. Only that order is removed. |
| OrderLifecycle.UpdateShippingCost | backend/src/main/java/com/example/marketPlace/service/OrderService.java:239-257 | Succeeds iff the order is PENDING and the cost is not null. A null cost on a PENDING order fails at the addition and is rolled back. A success sets the cost and a total of stored subtotals plus the cost, changes nothing else in the database, and returns `toDTO`'s view. |
| OrderLifecycle.DecrementStock | backend/src/main/java/com/example/marketPlace/service/OrderService.java:259-273 | Succeeds iff no line drives a stock negative. The result is every line taken out of stock. A failure rolls back to the state before. |
| OrderLifecycle.Approve | backend/src/main/java/com/example/marketPlace/service/OrderService.java:293-305 | Fails iff the order is unknown, or it is unpaid and its lines do not admit the decrement. A PAID order is left as it is. An unpaid order's success leaves only that order PAID and the stock decremented by its lines. A failure rolls back the status too. |
| OrderLifecycle.CheckoutPlacesOrder | backend/src/main/java/com/example/marketPlace/service/OrderService.java:48-88 | A successful checkout stores a new PENDING order under a fresh id, for the buyer, dated now, without shipping. It has one line per cart row, copied, and its total is the lines' amount. The buyer's cart is emptied and the order counter moves on. Other orders, other carts, users and payments are untouched. |
| OrderLifecycle.CheckoutTakesStock | backend/src/main/java/com/example/marketPlace/service/OrderService.java:74-77 | Checkout lowers each product's stock by exactly what the cart asks for it. |
| OrderLifecycle.CheckoutKeepsStockNonNegative | backend/src/main/java/com/example/marketPlace/service/OrderService.java:46-78 | With distinct products in the cart, no touched stock goes negative. |
| OrderLifecycle.CheckoutCanOversellRepeatedProduct | backend/src/main/java/com/example/marketPlace/service/OrderService.java:99-110 | Counterexample: stock 5 and two rows of 3 for the same product pass the check and leave stock -1. |
| OrderLifecycle.CancelUndoesCheckout | backend/src/main/java/com/example/marketPlace/service/OrderService.java:215-225 | The buyer cancelling a just-placed order restores the catalogue exactly. |
| OrderLifecycle.CancelTwiceRestocksTwice | backend/src/main/java/com/example/marketPlace/service/OrderService.java:179-187 | A CANCELED order can be cancelled again, and its lines return to stock a second time. |
| OrderLifecycle.UpdateStatusSkipsStates | backend/src/main/java/com/example/marketPlace/service/OrderService.java:208-213 | The transition check ignores the target status. A PENDING order may go straight to DELIVERED, and an open order may go back to PENDING. |
| OrderLifecycle.ApproveIdempotent | backend/src/main/java/com/example/marketPlace/service/OrderService.java:298-300 | Approving twice gives the same state and result as approving once. |
| OrderLifecycle.ApproveTakesStockOnce | backend/src/main/java/com/example/marketPlace/service/OrderService.java:293-305 | Approving an unpaid order takes each line out of stock exactly once and leaves no touched stock negative. |
| OrderLifecycle.CheckoutThenApproveTakesStockTwice | backend/src/main/java/com/example/marketPlace/service/OrderService.java:301-304 | Over checkout and approval, a product's stock falls by twice the ordered quantity. |
| OrderLifecycle.CheckoutTotalMatchesView | backend/src/main/java/com/example/marketPlace/service/OrderService.java:80-96 | Right after checkout, the stored total equals the view's recomputed total. |
| OrderLifecycle.ShippingTotalMatchesView | backend/src/main/java/com/example/marketPlace/service/OrderService.java:248-256 | After a shipping update, the stored total equals the view's total including shipping. |
| OrderService.CreateOrderFromCart | backend/src/main/java/com/example/marketPlace/service/OrderService.java:30-97 | The imperative checkout ends in exactly the result and state `Checkout` specifies. |
| OrderService.ConvertCartItems | backend/src/main/java/com/example/marketPlace/service/OrderService.java:58-78 | The loop builds one line per row, the running total equals the lines' amount, and stock ends as the cart decrement. |
| OrderService.UpdateOrderStatus | backend/src/main/java/com/example/marketPlace/service/OrderService.java:151-166 | Ends exactly as `UpdateStatus` specifies. |
| OrderService.ReturnStockFromOrder | backend/src/main/java/com/example/marketPlace/service/OrderService.java:215-225 | The loop leaves stock equal to the lines restocked, and nothing else changes. |
| OrderService.CancelOrder | backend/src/main/java/com/example/marketPlace/service/OrderService.java:168-194 | Ends exactly as `Cancel` specifies. |
| OrderService.DeleteOrder | backend/src/main/java/com/example/marketPlace/service/OrderService.java:196-206 | Ends exactly as `Delete` specifies. |
| OrderService.UpdateOrderShippingCost | backend/src/main/java/com/example/marketPlace/service/OrderService.java:239-257 | Ends exactly as `UpdateShippingCost` specifies. |
| OrderService.DecrementOrderStock | backend/src/main/java/com/example/marketPlace/service/OrderService.java:259-273 | The line-by-line loop, rolled back on the first shortage, ends exactly as `DecrementStock` specifies. |
| OrderService.ApproveOrder | backend/src/main/java/com/example/marketPlace/service/OrderService.java:293-305 | Ends exactly as `Approve` specifies. |
| PaymentMapping.GatewayStatusClasses | backend/src/main/java/com/example/marketPlace/service/PaymentService.java:267-275 | Each local status is reached from exactly its gateway statuses (both directions). COMPLETED comes only from "approved". PENDING comes from null and the three in-flight statuses. REFUNDED comes from the three closing statuses. FAILED comes from everything else, including "Approved" in another case. |
| PaymentMapping.PaymentMethodIgnoresCase | backend/src/main/java/com/example/marketPlace/service/PaymentService.java:277-285 | Ids equal up to case map to the same method. No id maps to CASH, and a null id maps to CREDIT_CARD. |
| PaymentMapping.PaymentMethodClasses | backend/src/main/java/com/example/marketPlace/service/PaymentService.java:277-285 | Each method is selected exactly by its lower-cased id, and every other id maps to CREDIT_CARD. |
| PaymentMapping.CardRuleIsCaseSensitive | backend/src/main/java/com/example/marketPlace/service/PaymentService.java:123 | "PIX" is recorded as PIX yet still requires a card token, while "pix" does not. |
| PaymentMapping.MissingTokenExamples | backend/src/main/java/com/example/marketPlace/service/PaymentService.java:124 | Null, empty and whitespace-only tokens are missing. A no-break space or a padded token is not. |
| PaymentMapping.Installments | backend/src/main/java/com/example/marketPlace/service/PaymentService.java:128 | At least 1: the requested count when it is positive, else 1. |
| WebhookSignature.Pieces | backend/src/main/java/com/example/marketPlace/service/PaymentService.java:47 | Splitting yields at least one piece, and no piece contains the separator. |
| WebhookSignature.JoinPieces | backend/src/main/java/com/example/marketPlace/service/PaymentService.java:47 | Joining the pieces with the separator gives the original string back. |
| WebhookSignature.DropTrailingEmpty | backend/src/main/java/com/example/marketPlace/service/PaymentService.java:47 | Removes exactly the trailing empty pieces and keeps the rest, so the result is a prefix. |
| WebhookSignature.JavaSplit | backend/src/main/java/com/example/marketPlace/service/PaymentService.java:47 | No part of `split(",")` contains a comma. |
| WebhookSignature.SplitTwo | backend/src/main/java/com/example/marketPlace/service/PaymentService.java:47 | Two separator-free strings joined by the separator split back into exactly those two. |
| WebhookSignature.Fields | backend/src/main/java/com/example/marketPlace/service/PaymentService.java:51-52 | One parsed field per header part, in order. |
| WebhookSignature.ParseKeyValue | backend/src/main/java/com/example/marketPlace/service/PaymentService.java:52-55 | `key=value` with no `=` in the key parses to the trimmed key and the trimmed rest, which may contain `=`. |
| WebhookSignature.LastValueIsLast | backend/src/main/java/com/example/marketPlace/service/PaymentService.java:51-57 | A key has a value iff some field carries it, and the value is that of the last such field. |
| WebhookSignature.ScanSignatureHeader | backend/src/main/java/com/example/marketPlace/service/PaymentService.java:51-57 | The loop ends holding the last `ts` and the last `v1`, or null when the key never appears. |
| WebhookSignature.TwoFieldHeader | backend/src/main/java/com/example/marketPlace/service/PaymentService.java:47-57 | The header `ts=<t>,v1=<h>` yields exactly `t` and `h`. |
| WebhookSignature.HexByte | backend/src/main/java/com/example/marketPlace/service/PaymentService.java:70 | `%02x` gives two characters per byte. |
| WebhookSignature.Hex | backend/src/main/java/com/example/marketPlace/service/PaymentService.java:68-71 | The hex string is twice as long as the byte string. |
| WebhookSignature.HexRoundTrip | backend/src/main/java/com/example/marketPlace/service/PaymentService.java:68-73 | Decoding the lowercase hex gives the bytes back. |
| WebhookSignature.HexInjective | backend/src/main/java/com/example/marketPlace/service/PaymentService.java:68-73 | Two digests with the same hex are equal, so comparing hex strings compares digests. |
| WebhookSignature.HexHasNoSeparators | backend/src/main/java/com/example/marketPlace/service/PaymentService.java:68-73 | The hex has no comma and no blanks, and every character is a lowercase hex digit. |
| WebhookSignature.HexEncode | backend/src/main/java/com/example/marketPlace/service/PaymentService.java:68-71 | The `StringBuilder` loop produces exactly the hex rendering. |
| WebhookSignature.ValidateWebhookSignature | backend/src/main/java/com/example/marketPlace/service/PaymentService.java:45-79 | The method returns exactly the specified decision. A null header, a missing `ts` or `v1`, or an unusable key gives false. |
| WebhookSignature.AcceptedSignatureMatches | backend/src/main/java/com/example/marketPlace/service/PaymentService.java:45-79 | An accepted header has a `ts`, and its last `v1` decodes to exactly the keyed hash of the manifest built from the last `ts`. |
| WebhookSignature.SenderSignatureAccepted | backend/src/main/java/com/example/marketPlace/service/PaymentService.java:45-79 | The header the gateway sends, with the right hash, is accepted. |
| WebhookSignature.TamperedSignatureRejected | backend/src/main/java/com/example/marketPlace/service/PaymentService.java:73 | Any other `v1` is rejected, including uppercase hex. |
| PaymentLogic.IndexOfTransaction | backend/src/main/java/com/example/marketPlace/repository/PaymentRepository.java:15 | `findByTransactionId` finds a payment carrying the id, or none iff no payment carries it. |
| PaymentLogic.IndexOfTransactionUnique | backend/src/main/java/com/example/marketPlace/model/Payment.java:40-41 | With the unique column, the lookup finds the one payment with the id. |
| PaymentLogic.CompletedEvent | backend/src/main/java/com/example/marketPlace/service/PaymentService.java:242-251 | The success event carries the order, the buyer's e-mail, the amount, "COMPLETED" and the gateway id. |
| PaymentLogic.SaveAndMap | backend/src/main/java/com/example/marketPlace/service/PaymentService.java:230-261 | Fails with an unexpected error, changing nothing, iff the gateway id or the idempotency key is already stored. Otherwise it appends one row: mapped status and method, gateway amount, now, the id's text, the key and the order. It returns that row's receipt with the QR data and publishes one event iff the row is COMPLETED. |
| PaymentLogic.SaveAndMapPublishesOnCompletion | backend/src/main/java/com/example/marketPlace/service/PaymentService.java:242-252 | Earlier rows and events are kept. Exactly one event is added iff the gateway said "approved", and the key is recorded afterwards. |
| PaymentLogic.Charge | backend/src/main/java/com/example/marketPlace/service/PaymentService.java:116-130 | The charge carries the order's positive total, its id as external reference, the method, the payer e-mail and the key. It has card data iff the method is not exactly "pix" or "bolbradesco", and then it uses the request's token and at least one installment. |
| PaymentLogic.CreatePayment | backend/src/main/java/com/example/marketPlace/service/PaymentService.java:91-151 | Each precheck error happens exactly in its case, in the source's order. A charge is sent iff every check passes. A failure changes nothing. Once the charge is sent, an API failure, a client failure and any other failure become their own errors, and a created charge ends exactly in `SaveAndMap`'s result and ledger. |
| PaymentLogic.ResubmissionRefused | backend/src/main/java/com/example/marketPlace/service/PaymentService.java:96-98 | Idempotency: after a stored submission, the same key is refused before any charge and nothing changes. |
| PaymentLogic.PixNeedsNoCard | backend/src/main/java/com/example/marketPlace/service/PaymentService.java:86-89 | A PIX submission never asks for a token and sends no card data. |
| PaymentLogic.ChargeReferencesOrder | backend/src/main/java/com/example/marketPlace/service/PaymentService.java:120 | The external reference parses back to the order's id. |
| PaymentLogic.UpdateLocalStatus | backend/src/main/java/com/example/marketPlace/service/PaymentService.java:200-222 | Reports a change iff the mapped status differs. Only that payment's status is set, and an event is published iff the status changed into COMPLETED. |
| PaymentLogic.UpdateLocalStatusIdempotent | backend/src/main/java/com/example/marketPlace/service/PaymentService.java:203 | Applying the same gateway status again changes nothing and publishes nothing. |
| PaymentLogic.ProcessWebhook | backend/src/main/java/com/example/marketPlace/service/PaymentService.java:153-173 | Fails iff the topic is "payment" and the id is null or not a `Long`. Only a found gateway payment with a stored local payment can change the ledger. |
| PaymentLogic.WebhookUpdatesStoredPayment | backend/src/main/java/com/example/marketPlace/service/PaymentService.java:159-165 | A notification for a stored payment gives it the mapped gateway status and leaves other payments alone. |
| PaymentLogic.WebhookIdMustMatchText | backend/src/main/java/com/example/marketPlace/service/PaymentService.java:159-161 | "+7" reaches gateway payment 7 but does not update the payment stored as "7". |
| PaymentLogic.DuePayments | backend/src/main/java/com/example/marketPlace/repository/PaymentRepository.java:17 | The selection lists a payment iff it is PENDING and dated before the cutoff, in ascending order. |
| PaymentLogic.ReconcileOne | backend/src/main/java/com/example/marketPlace/service/PaymentService.java:187-196 | One reconciliation step keeps the ledger consistent. |
| PaymentLogic.ReconcileAll | backend/src/main/java/com/example/marketPlace/service/PaymentService.java:186-197 | The loop keeps the ledger consistent and the number of payments unchanged. |
| PaymentLogic.ReconcileOneEffect | backend/src/main/java/com/example/marketPlace/service/PaymentService.java:186-197 | One turn of the loop changes at most its own payment: the mapped status when the id parses and the gateway answers, nothing otherwise. Events are only appended, each a completion. |
| PaymentLogic.ReconcileAllEffect | backend/src/main/java/com/example/marketPlace/service/PaymentService.java:186-197 | Each listed payment the gateway answered for gets the mapped status, independently of failures on the others. Every other payment and table is untouched. Events are only appended, each a completion. |
| PaymentLogic.ReconcileEffect | backend/src/main/java/com/example/marketPlace/service/PaymentService.java:175-198 | A payment changes iff it is PENDING, older than five minutes and resolvable, and then it takes the gateway's mapped status. |
| PaymentService.EventQueue.Publish | backend/src/main/java/com/example/marketPlace/service/messaging/PaymentProducer.java:17-24 | The message joins the end of the queue. |
| PaymentService.SaveAndMapPayment | backend/src/main/java/com/example/marketPlace/service/PaymentService.java:230-261 | Ends exactly as `SaveAndMap` specifies. |
| PaymentService.CreatePaymentIntegration | backend/src/main/java/com/example/marketPlace/service/PaymentService.java:91-151 | Ends exactly as `CreatePayment` specifies, with the same charge sent. |
| PaymentService.UpdateLocalPaymentStatus | backend/src/main/java/com/example/marketPlace/service/PaymentService.java:200-222 | Ends exactly as `UpdateLocalStatus` specifies. |
| PaymentService.ProcessWebhookNotification | backend/src/main/java/com/example/marketPlace/service/PaymentService.java:153-173 | Ends exactly as `ProcessWebhook` specifies. |
| PaymentService.ReconcilePayment | backend/src/main/java/com/example/marketPlace/service/PaymentService.java:187-196 | One loop turn ends exactly as `ReconcileOne` specifies. |
| PaymentService.ReconcilePendingPayments | backend/src/main/java/com/example/marketPlace/service/PaymentService.java:175-198 | The loop ends exactly as `Reconcile` specifies. |
| PaymentListener.PaymentSuccess | backend/src/main/java/com/example/marketPlace/service/messaging/PaymentListener.java:23-44 | An unknown order is an error, and so is a crashing mail transport, which rolls back. A failure changes nothing. Otherwise the order becomes PAID, nothing else changes, and one confirmation is sent iff the mail went out. |
| PaymentListener.RedeliveryMailsAgain | backend/src/main/java/com/example/marketPlace/service/messaging/PaymentListener.java:30-38 | A redelivered message leaves the order PAID and mails the buyer a second time. |
| PaymentListener.PaysCanceledOrder | backend/src/main/java/com/example/marketPlace/service/messaging/PaymentListener.java:33-34 | A canceled order becomes PAID and keeps the stock its cancellation returned. |
| PaymentListener.MessageFirstSkipsApprovalStock | backend/src/main/java/com/example/marketPlace/service/messaging/PaymentListener.java:33-34 | After the listener, approval finds the order PAID and takes no stock. |
| PaymentListener.Mailer.Deliver | backend/src/main/java/com/example/marketPlace/service/EmailService.java:24-58 | The confirmation joins the sent list. |
| PaymentListener.HandlePaymentSuccess | backend/src/main/java/com/example/marketPlace/service/messaging/PaymentListener.java:23-44 | Ends exactly as `PaymentSuccess` specifies. |
| PaymentController.TextOf | backend/src/main/java/com/example/marketPlace/controller/PaymentController.java:52 | A successful `(String)` cast gives the key's string, or null iff the key is absent. |
| PaymentController.PaymentIdOf | backend/src/main/java/com/example/marketPlace/controller/PaymentController.java:56-62 | When `data` is a map, the id is `data.id` iff that is a string. Otherwise it is the rendering of a top-level `id`, if present. |
| PaymentController.ApprovalTargetMeans | backend/src/main/java/com/example/marketPlace/controller/PaymentController.java:89-100 | Order `o` is approved iff the body's status is the string "approved" and its external reference is a string that parses to `o` (both directions). |
| PaymentController.ChargeReportApprovesOrder | backend/src/main/java/com/example/marketPlace/controller/PaymentController.java:95-98 | An approved report for a charge approves that charge's order. |
| PaymentController.HandleWebhook | backend/src/main/java/com/example/marketPlace/controller/PaymentController.java:47-74 | The reply is 500 iff `type` is not a string, and then nothing changes. The database stays consistent. |
| PaymentController.WebhookOnlyApproves | backend/src/main/java/com/example/marketPlace/controller/PaymentController.java:54-70 | A notification changes the database only by approving the order of a payment the gateway reports approved. A notification not about a payment changes nothing. Conversely, a notification about a payment, by `type` or by `topic`, approves the order whenever its id (under `data` or at the top level) fetches an approved payment with a parsable reference. |
| PaymentController.RedeliveryTakesStockOnce | backend/src/main/java/com/example/marketPlace/controller/PaymentController.java:64-98 | Handling the same notification twice equals handling it once. |
| PaymentController.UnsignedNotificationApproves | backend/src/main/java/com/example/marketPlace/controller/PaymentController.java:47-74 | A bare `{type: payment, data: {id}}` approves the order, whatever the headers. |
| PaymentController.CheckPaymentStatus | backend/src/main/java/com/example/marketPlace/controller/PaymentController.java:76-105 | Approves exactly the target order, or changes nothing when there is no target. |
| PaymentController.HandleWebhookRequest | backend/src/main/java/com/example/marketPlace/controller/PaymentController.java:47-74 | Ends exactly as `HandleWebhook` specifies. |

## Left out

- Integer width: `Integer` quantities and stocks and `Long` ids are unbounded integers. Overflow of a stock or of a sum is not modelled. Parsing and rendering a `Long` do respect the 64-bit range.
- Case folding: `toLowerCase` and `equalsIgnoreCase` fold ASCII letters only. Non-ASCII case pairs are compared as distinct characters. The default locale is assumed not to be Turkic: under a Turkish locale `"PIX".toLowerCase()` is `"pıx"`, which `mapPaymentMethod` maps to CREDIT_CARD.
- Common.ParseLong reads only the ASCII digits 0-9. `Long.parseLong` reads digits with `Character.digit`, which also accepts the other Unicode decimal digits (fullwidth "１２" is 12). A webhook id or external reference written in such digits is rejected by the model, where Java would fetch or approve with it.
- The gateway SDK and HTTP: `PaymentClient.create`, `PaymentClient.get` and the `RestTemplate` fetch are oracle parameters, and only their outcomes are modelled. The access token, the URL and the request headers other than the idempotency key are left out.
- HMAC and encodings: HMAC-SHA256 and `String.getBytes` are parameters. The digest's internals and the platform charset are not modelled.
- `String.format` of the manifest: a null data id or request id renders as "null", as in Java. A null `ts` cannot reach the manifest.
- Concurrency: concurrent requests and transaction isolation are left out. Each operation runs atomically, as one transaction on one thread.
- Broker failures: a failure of `sendPaymentSuccess` is swallowed by the producer, so the queue is modelled as always accepting.
- Ticket URL: `mapToResponse` always passes a null ticket URL, so the receipt has no such field. The QR fields are modelled.
- Payment ids: the generated identity is modelled as the row count plus one, which is what an identity column gives when no row is ever deleted.
- Wrappers and queries: `processPayment` and `processPixPayment` only call `createPaymentIntegration` with the request's method or "pix", and they are modelled through it. `getPaymentStatus`, `getOrderById`, `getUserOrders`, `getAllOrders` and `getOrdersByStatus` only read and are not modelled.
- `OrderService.toDTO`: it calls an `OrderItemResponseDTO` constructor with seven arguments, including the product image, but the record has six components. The model shows the six existing fields with the stored subtotal (`StoredItemViews`), and the image is left out.
- Scheduling: the `@Scheduled` trigger and `PaymentReconciler` are left out. The reconciliation takes `now` as a parameter.
- E-mail content: the HTML body, subject and sender of the confirmation are left out, and only the recipient, order and amount are kept. Whether sending succeeds is a parameter.
- Money conversion: the `Double` cart price converted through `BigDecimal.valueOf` is a `real`, and the decimal rendering of a double is not modelled.
- Time: `LocalDateTime` is a count of seconds, and "five minutes ago" is `now - 300`.
- Logging is left out.
- Signature check on the endpoint: `PaymentController.handleWebhook` never calls `validateWebhookSignature`, and the model follows the code. `UnsignedNotificationApproves` states the consequence.
- `processWebhook` error path: an id that is not a `Long` makes `processWebhook` throw `NumberFormatException` out of its catch, which only catches SDK exceptions. The model returns it as `MalformedPaymentId`.
- `createPaymentIntegration` after a charge: when the gateway has already charged and the row then breaks a unique column, the model reports `Unexpected` and stores nothing. It does not model the gateway-side charge that remains.
- `OrderLifecycle.PlaceOrder` and `OrderLifecycle.WithStatus` state only that the database stays consistent. Their effect is stated through `Checkout`, `CheckoutPlacesOrder`, `UpdateStatus`, `Approve` and `PaymentSuccess`.
- PaymentLogic.SaveAndMap assumes that `payments.order_id` carries no unique constraint. The `@OneToOne` join column gets one only when a recent Hibernate generates the schema, and no build file fixes the version. With that constraint, a second payment row for the same order would fail at `save`, for example a retry with a new key after a rejected card. The row would then be reported as an unexpected error after the gateway had already charged. The model stores that row.
- `PaymentLogic.ReconcileOne` and `PaymentLogic.ReconcileAll` state only consistency and row count. Their effect is stated by `ReconcileOneEffect`, `ReconcileAllEffect` and `ReconcileEffect`.
- `PaymentController.HandleWebhook` states the 500 case and consistency in its own contract. `WebhookOnlyApproves` states its effect on the database in both directions and for every payload route. `RedeliveryTakesStockOnce` and `UnsignedNotificationApproves` state redelivery and the unsigned example.

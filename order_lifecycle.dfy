/** What each `OrderService` operation does to the database, as a function of the state before it.
    Every operation runs in one transaction, so one that throws leaves the database as it was. */
module OrderLifecycle {
  import opened Common
  import opened Domain
  import opened StockLedger
  import opened OrderViews

  /** The exceptions `OrderService` throws. `OrderNotFound` is the typed `OrderNotFoundException`;
      `OrderMissing` is the plain `RuntimeException` that `updateShippingCost`, `decrementStock`
      and `approveOrder` throw for an unknown order. */
  datatype OrderError =
    | UserNotFound(userId: UserId)
    | EmptyCart(userId: UserId)
    | InsufficientStock(productName: string, available: int, requested: int)
    | OrderNotFound(orderId: OrderId)
    | OrderMissing(orderId: OrderId)
    | InvalidOrderStatus(current: OrderStatus)
    | NotOrderOwner(userId: UserId)
    | NotCanceled(current: OrderStatus)
    | ShippingLocked(current: OrderStatus)
    | StockExhausted(productName: string)
    | StillReferenced(orderId: OrderId)
    | NullShippingCost(orderId: OrderId)

  /** The outcome of one operation: what it returns or throws, and the database after it. */
  datatype Step<T> = Step(result: Result<T, OrderError>, db: Db)

  lemma CartInCatalogOf(db: Db, u: UserId)
    requires Valid(db)
    ensures CartInCatalog(db.products, CartOf(db, u))
    ensures Covers(db.products, CartLines(CartOf(db, u)))
  {
  }

  lemma ItemsInCatalog(db: Db, o: OrderId)
    requires Valid(db) && o in db.orders
    ensures forall i :: 0 <= i < |db.orders[o].items| ==> db.orders[o].items[i].productId in db.products
    ensures Covers(db.products, ItemLines(db.orders[o].items))
    ensures db.orders[o].buyerId in db.users
  {
    assert OrderValid(db, o);
  }

  /** The view every operation returns: the order's lines through `OrderItemResponseDTO.from`,
      then `OrderResponseDTO.from`. */
  function ViewOf(db: Db, o: OrderId): OrderView
    requires Valid(db) && o in db.orders
  {
    ItemsInCatalog(db, o);
    var order := db.orders[o];
    OrderViewOf(order, db.users[order.buyerId], ItemViews(order.items, db.products))
  }

  /** The view `OrderService.toDTO` returns, which shows the stored item subtotals. */
  function StoredViewOf(db: Db, o: OrderId): OrderView
    requires Valid(db) && o in db.orders
  {
    ItemsInCatalog(db, o);
    var order := db.orders[o];
    OrderViewOf(order, db.users[order.buyerId], StoredItemViews(order.items, db.products))
  }

  /** The order lines made from the cart rows: product and quantity copied, the cart's price
      frozen as the unit price, and subtotal = unit price times quantity. */
  function SnapshotItems(cart: seq<CartItem>, firstId: int): (items: seq<OrderItem>)
    ensures |items| == |cart|
    ensures forall i :: 0 <= i < |cart| ==>
      items[i] == OrderItem(firstId + i, cart[i].productId, cart[i].quantity, cart[i].price, Times(cart[i].price, cart[i].quantity))
  {
    seq(|cart|, i requires 0 <= i < |cart| =>
      OrderItem(firstId + i, cart[i].productId, cart[i].quantity, cart[i].price, Times(cart[i].price, cart[i].quantity)))
  }

  /** One more cart row adds one more order line, numbered after the others. */
  lemma SnapshotItemsAppend(cart: seq<CartItem>, firstId: int, i: nat)
    requires i < |cart|
    ensures SnapshotItems(cart[..i + 1], firstId) == SnapshotItems(cart[..i], firstId)
      + [OrderItem(firstId + i, cart[i].productId, cart[i].quantity, cart[i].price, Times(cart[i].price, cart[i].quantity))]
  {
  }

  lemma ItemLinesOfSnapshot(cart: seq<CartItem>, firstId: int)
    ensures ItemLines(SnapshotItems(cart, firstId)) == CartLines(cart)
  {
  }

  /** The new order `createOrderFromCart` saves: PENDING, dated `now`, one line per cart row,
      no shipping, and the total of the lines. */
  function NewOrder(db: Db, u: UserId, now: Time): Order
  {
    var items := SnapshotItems(CartOf(db, u), db.nextItemId);
    Order(db.nextOrderId, u, now, OrderStatus.Pending, items, None, Some(LinesAmount(items)))
  }

  /** The successful part of `createOrderFromCart`: stock taken out for every cart row, the order
      stored under a fresh id, and the user's cart emptied. */
  function PlaceOrder(db: Db, u: UserId, now: Time): (db': Db)
    requires Valid(db) && u in db.users
    ensures Valid(db')
  {
    var cart := CartOf(db, u);
    CartInCatalogOf(db, u);
    var order := NewOrder(db, u, now);
    var db' := db.(products := Decremented(db.products, CartLines(cart)),
                   orders := db.orders[db.nextOrderId := order],
                   carts := db.carts[u := []],
                   nextOrderId := db.nextOrderId + 1,
                   nextItemId := db.nextItemId + |cart|);
    forall o | o in db'.orders ensures OrderValid(db', o) {
      if o != db.nextOrderId {
        assert OrderValid(db, o);
      }
    }
    db'
  }

  /** `createOrderFromCart`: an unknown user or an empty cart is rejected; then every cart row is
      checked against the stock before the order, and any row asking for more than its
      product's stock rejects the whole checkout; only then is the order placed. */
  function Checkout(db: Db, u: UserId, now: Time): (s: Step<OrderView>)
    requires Valid(db)
    ensures Valid(s.db)
    ensures s.result.Err? ==> s.db == db
    ensures s.result == Err(UserNotFound(u)) <==> u !in db.users
    ensures s.result == Err(EmptyCart(u)) <==> u in db.users && CartOf(db, u) == []
    ensures s.result.Err? && s.result.error.InsufficientStock? <==>
      u in db.users && CartOf(db, u) != [] &&
      (CartInCatalogOf(db, u); exists k :: 0 <= k < |CartOf(db, u)| && Short(db.products, CartOf(db, u), k))
    ensures s.result.Ok? <==> (u in db.users && CartOf(db, u) != [] &&
      (CartInCatalogOf(db, u); forall k :: 0 <= k < |CartOf(db, u)| ==> !Short(db.products, CartOf(db, u), k)))
    ensures s.result.Ok? ==> s.db == PlaceOrder(db, u, now) && s.result.value == ViewOf(s.db, db.nextOrderId)
  {
    if u !in db.users then Step(Err(UserNotFound(u)), db)
    else
      var cart := CartOf(db, u);
      CartInCatalogOf(db, u);
      if cart == [] then Step(Err(EmptyCart(u)), db)
      else
        match ValidateStock(db.products, cart)
        case Some(sh) => Step(Err(InsufficientStock(sh.productName, sh.available, sh.requested)), db)
        case None =>
          var db' := PlaceOrder(db, u, now);
          Step(Ok(ViewOf(db', db.nextOrderId)), db')
  }

  /** `validateStatusTransition`: the only rule is that DELIVERED and CANCELED orders keep their
      status; the requested status is not looked at. */
  predicate StatusChangeAllowed(current: OrderStatus)
  {
    current != OrderStatus.Delivered && current != OrderStatus.Canceled
  }

  function WithStatus(db: Db, o: OrderId, status: OrderStatus): (db': Db)
    requires Valid(db) && o in db.orders
    ensures Valid(db')
  {
    var db' := db.(orders := db.orders[o := db.orders[o].(status := status)]);
    assert forall p :: p in db'.orders && p != o ==> OrderValid(db, p);
    assert OrderValid(db, o);
    db'
  }

  /** `updateOrderStatus`: rejected exactly when the order is unknown or DELIVERED or CANCELED;
      otherwise the order takes the requested status, whatever it is, and nothing else changes. */
  function UpdateStatus(db: Db, o: OrderId, target: OrderStatus): (s: Step<OrderView>)
    requires Valid(db)
    ensures Valid(s.db)
    ensures s.result.Err? ==> s.db == db
    ensures s.result == Err(OrderNotFound(o)) <==> o !in db.orders
    ensures s.result.Err? && s.result.error.InvalidOrderStatus? <==> o in db.orders && !StatusChangeAllowed(db.orders[o].status)
    ensures s.result.Ok? <==> o in db.orders && StatusChangeAllowed(db.orders[o].status)
    ensures s.result.Ok? ==> o in db.orders && s.db == db.(orders := db.orders[o := db.orders[o].(status := target)])
    ensures s.result.Ok? ==> s.result.value == ViewOf(s.db, o)
  {
    if o !in db.orders then Step(Err(OrderNotFound(o)), db)
    else
      var current := db.orders[o].status;
      if !StatusChangeAllowed(current) then Step(Err(InvalidOrderStatus(current)), db)
      else
        var db' := WithStatus(db, o, target);
        Step(Ok(ViewOf(db', o)), db')
  }

  /** The successful part of `cancelOrder`: CANCELED, and every line's quantity put back. */
  function CancelAndRestock(db: Db, o: OrderId): (db': Db)
    requires Valid(db) && o in db.orders
    ensures Valid(db')
    ensures (ItemsInCatalog(db, o);
      db' == db.(orders := db.orders[o := db.orders[o].(status := OrderStatus.Canceled)],
                 products := Restocked(db.products, ItemLines(db.orders[o].items))))
  {
    ItemsInCatalog(db, o);
    var db1 := WithStatus(db, o, OrderStatus.Canceled);
    var c := Restocked(db1.products, ItemLines(db1.orders[o].items));
    StockChangeKeepsValid(db1, c);
    db1.(products := c)
  }

  /** `cancelOrder`: rejected for an unknown order, for a caller who is not the buyer, and for a
      SHIPPED or DELIVERED order; an order already CANCELED is not rejected. */
  function Cancel(db: Db, o: OrderId, u: UserId): (s: Step<OrderView>)
    requires Valid(db)
    ensures Valid(s.db)
    ensures s.result.Err? ==> s.db == db
    ensures s.result.Ok? <==> (o in db.orders && db.orders[o].buyerId == u
      && db.orders[o].status != OrderStatus.Shipped && db.orders[o].status != OrderStatus.Delivered)
    ensures s.result.Ok? ==> s.db == CancelAndRestock(db, o) && s.result.value == ViewOf(s.db, o)
  {
    if o !in db.orders then Step(Err(OrderNotFound(o)), db)
    else if db.orders[o].buyerId != u then Step(Err(NotOrderOwner(u)), db)
    else
      var current := db.orders[o].status;
      if current == OrderStatus.Delivered || current == OrderStatus.Shipped then Step(Err(InvalidOrderStatus(current)), db)
      else
        var db' := CancelAndRestock(db, o);
        Step(Ok(ViewOf(db', o)), db')
  }

  /** `deleteOrder`: only a CANCELED order is deleted. A payment row still refers to its order
      through a foreign key, so deleting a paid-for order fails in the database. */
  function Delete(db: Db, o: OrderId): (s: Step<()>)
    requires Valid(db)
    ensures Valid(s.db)
    ensures s.result.Err? ==> s.db == db
    ensures s.result.Ok? <==> (o in db.orders && db.orders[o].status == OrderStatus.Canceled
      && forall i :: 0 <= i < |db.payments| ==> db.payments[i].orderId != o)
    ensures s.result.Ok? ==> s.db == db.(orders := db.orders - {o})
  {
    if o !in db.orders then Step(Err(OrderNotFound(o)), db)
    else if db.orders[o].status != OrderStatus.Canceled then Step(Err(NotCanceled(db.orders[o].status)), db)
    else if exists i :: 0 <= i < |db.payments| && db.payments[i].orderId == o then Step(Err(StillReferenced(o)), db)
    else
      var db' := db.(orders := db.orders - {o});
      assert forall p :: p in db'.orders ==> OrderValid(db, p);
      Step(Ok(()), db')
  }

  /** `updateShippingCost`: only a PENDING order takes a shipping cost; its total becomes the sum of
      the stored line subtotals plus that cost. A null cost passes the status check, then the
      addition throws and the transaction is rolled back. */
  function UpdateShippingCost(db: Db, o: OrderId, cost: Option<Money>): (s: Step<OrderView>)
    requires Valid(db)
    ensures Valid(s.db)
    ensures s.result.Err? ==> s.db == db
    ensures s.result.Ok? <==> o in db.orders && db.orders[o].status == OrderStatus.Pending && cost.Some?
    ensures s.result == Err(NullShippingCost(o)) <==> o in db.orders && db.orders[o].status == OrderStatus.Pending && cost.None?
    ensures s.result.Ok? ==> s.db.orders == db.orders[o := db.orders[o].(shippingCost := cost,
                                                 total := Some(StoredSubtotalSum(db.orders[o].items) + cost.value))]
    ensures s.result.Ok? ==> s.db.products == db.products && s.db.payments == db.payments
    ensures s.result.Ok? ==> s.db == db.(orders := s.db.orders)
    ensures s.result.Ok? ==> s.result.value == StoredViewOf(s.db, o)
  {
    if o !in db.orders then Step(Err(OrderMissing(o)), db)
    else
      var order := db.orders[o];
      if order.status != OrderStatus.Pending then Step(Err(ShippingLocked(order.status)), db)
      else if cost.None? then Step(Err(NullShippingCost(o)), db)
      else
        var db' := db.(orders := db.orders[o := order.(shippingCost := cost,
                                                       total := Some(StoredSubtotalSum(order.items) + cost.value))]);
        assert forall p :: p in db'.orders && p != o ==> OrderValid(db, p);
        assert OrderValid(db, o);
        Step(Ok(StoredViewOf(db', o)), db')
  }

  /** `decrementStock`: every line of the order is taken out of stock in order; if any would
      leave its product's stock negative, nothing is taken. */
  function DecrementStock(db: Db, o: OrderId): (s: Step<()>)
    requires Valid(db)
    ensures Valid(s.db)
    ensures s.result.Err? ==> s.db == db
    ensures s.result.Ok? <==> o in db.orders && (ItemsInCatalog(db, o); Admits(db.products, ItemLines(db.orders[o].items)))
    ensures s.result.Ok? ==> s.db == db.(products := Decremented(db.products, ItemLines(db.orders[o].items)))
    ensures s.result.Ok? ==> forall i :: 0 <= i < |db.orders[o].items| ==> Stock(s.db.products, db.orders[o].items[i].productId) >= 0
  {
    if o !in db.orders then Step(Err(OrderMissing(o)), db)
    else
      ItemsInCatalog(db, o);
      var lines := ItemLines(db.orders[o].items);
      match CheckedDecrement(db.products, lines)
      case Err(p) => Step(Err(StockExhausted(db.products[p].productName)), db)
      case Ok(c) =>
        StockChangeKeepsValid(db, c);
        assert forall i :: 0 <= i < |db.orders[o].items| ==> lines[i].productId == db.orders[o].items[i].productId;
        Step(Ok(()), db.(products := c))
  }

  /** `approveOrder`: a PAID order is left alone; otherwise the order becomes PAID and its lines
      are taken out of stock, and if that fails the whole approval is rolled back. */
  function Approve(db: Db, o: OrderId): (s: Step<()>)
    requires Valid(db)
    ensures Valid(s.db)
    ensures s.result.Err? ==> s.db == db
    ensures s.result == Err(OrderMissing(o)) <==> o !in db.orders
    ensures o in db.orders && db.orders[o].status == OrderStatus.Paid ==> s == Step(Ok(()), db)
    ensures o in db.orders && db.orders[o].status != OrderStatus.Paid ==> (ItemsInCatalog(db, o);
      && (s.result.Ok? <==> Admits(db.products, ItemLines(db.orders[o].items)))
      && (s.result.Ok? ==> s.db == db.(orders := db.orders[o := db.orders[o].(status := OrderStatus.Paid)],
                                       products := Decremented(db.products, ItemLines(db.orders[o].items)))))
    ensures s.result.Ok? ==> o in db.orders && o in s.db.orders && s.db.orders[o].status == OrderStatus.Paid
  {
    if o !in db.orders then Step(Err(OrderMissing(o)), db)
    else if db.orders[o].status == OrderStatus.Paid then Step(Ok(()), db)
    else
      var s := DecrementStock(WithStatus(db, o, OrderStatus.Paid), o);
      if s.result.Err? then Step(s.result, db) else s
  }

  // ---------------------------------------------------------------------------------------------
  // Properties of the lifecycle

  /** A successful checkout stores a PENDING order for the buyer, under a fresh id, with one line
      per cart row (quantity and price copied), no shipping, and total = sum of price times
      quantity; the cart is emptied; other orders and the payments are untouched. */
  lemma CheckoutPlacesOrder(db: Db, u: UserId, now: Time)
    requires Valid(db)
    requires Checkout(db, u, now).result.Ok?
    ensures var db' := Checkout(db, u, now).db; var cart := CartOf(db, u);
      && db.nextOrderId !in db.orders
      && db'.orders.Keys == db.orders.Keys + {db.nextOrderId}
      && (forall o :: o in db.orders ==> db'.orders[o] == db.orders[o])
      && var order := db'.orders[db.nextOrderId];
      && order.status == OrderStatus.Pending && order.buyerId == u && order.orderDate == now
      && order.shippingCost == None
      && |order.items| == |cart| && cart != []
      && (forall i :: 0 <= i < |cart| ==>
            (order.items[i].productId == cart[i].productId
             && order.items[i].quantity == cart[i].quantity && order.items[i].unitPrice == cart[i].price))
      && order.total == Some(LinesAmount(order.items))
      && CartOf(db', u) == []
      && db'.carts == db.carts[u := []]
      && db'.users == db.users
      && db'.payments == db.payments
      && db'.nextOrderId == db.nextOrderId + 1
  {
    forall o | o in db.orders ensures o < db.nextOrderId {
      assert OrderValid(db, o);
    }
  }

  /** Conservation at checkout: each product's stock drops by exactly the quantity the cart asks for it. */
  lemma CheckoutTakesStock(db: Db, u: UserId, now: Time, p: ProductId)
    requires Valid(db) && p in db.products
    requires Checkout(db, u, now).result.Ok?
    ensures p in Checkout(db, u, now).db.products
    ensures Stock(Checkout(db, u, now).db.products, p) == Stock(db.products, p) - Requested(CartLines(CartOf(db, u)), p)
  {
    CartInCatalogOf(db, u);
    DecrementedStock(db.products, CartLines(CartOf(db, u)), p);
  }

  /** When the cart's rows name distinct products, a successful checkout leaves every product it
      touched with a non-negative stock: each row was checked against the stock before the order. */
  lemma CheckoutKeepsStockNonNegative(db: Db, u: UserId, now: Time)
    requires Valid(db)
    requires DistinctProducts(CartLines(CartOf(db, u)))
    requires Checkout(db, u, now).result.Ok?
    ensures forall i :: 0 <= i < |CartOf(db, u)| ==>
      CartOf(db, u)[i].productId in Checkout(db, u, now).db.products &&
      Stock(Checkout(db, u, now).db.products, CartOf(db, u)[i].productId) >= 0
  {
    var cart := CartOf(db, u);
    CartInCatalogOf(db, u);
    forall i | 0 <= i < |cart|
      ensures Stock(Checkout(db, u, now).db.products, cart[i].productId) >= 0
    {
      CheckoutTakesStock(db, u, now, cart[i].productId);
      RequestedDistinct(CartLines(cart), i);
      assert !Short(db.products, cart, i);
    }
  }

  /** Two cart rows for the same product are each checked against the stock before the order,
      so together they can take more than there is: stock 5, rows of 3 and 3, stock -1 after. */
  lemma CheckoutCanOversellRepeatedProduct(name: string, email: string, productName: string)
    ensures var db := Db(map[7 := User(7, name, email)],
                         map[1 := Product(1, productName, 10.0, 5)],
                         map[7 := [CartItem(1, 1, 3, 10.0), CartItem(2, 1, 3, 10.0)]],
                         map[], [], 1, 1);
      && Valid(db)
      && Checkout(db, 7, 0).result.Ok?
      && Stock(Checkout(db, 7, 0).db.products, 1) == -1
  {
    var db := Db(map[7 := User(7, name, email)],
                 map[1 := Product(1, productName, 10.0, 5)],
                 map[7 := [CartItem(1, 1, 3, 10.0), CartItem(2, 1, 3, 10.0)]],
                 map[], [], 1, 1);
    var cart := CartOf(db, 7);
    assert !Short(db.products, cart, 0) && !Short(db.products, cart, 1);
    CheckoutTakesStock(db, 7, 0, 1);
    var lines := CartLines(cart);
    assert lines == [Line(1, 3), Line(1, 3)];
    assert lines[..1] == [Line(1, 3)] && lines[..1][..0] == [];
    assert Requested(lines[..1], 1) == 3;
    assert Requested(lines, 1) == 6;
  }

  /** Cancelling a freshly placed order as its buyer puts back exactly what checkout took. */
  lemma CancelUndoesCheckout(db: Db, u: UserId, now: Time)
    requires Valid(db)
    requires Checkout(db, u, now).result.Ok?
    ensures Cancel(Checkout(db, u, now).db, db.nextOrderId, u).result.Ok?
    ensures Cancel(Checkout(db, u, now).db, db.nextOrderId, u).db.products == db.products
  {
    var cart := CartOf(db, u);
    CartInCatalogOf(db, u);
    ItemLinesOfSnapshot(cart, db.nextItemId);
    RestockUndoesDecrement(db.products, CartLines(cart));
  }

  /** `cancelOrder` has no guard against an order that is already CANCELED: a second cancellation
      succeeds and puts the lines back into stock a second time. */
  lemma CancelTwiceRestocksTwice(db: Db, o: OrderId, u: UserId, p: ProductId)
    requires Valid(db) && p in db.products
    requires Cancel(db, o, u).result.Ok?
    ensures Cancel(Cancel(db, o, u).db, o, u).result.Ok?
    ensures p in Cancel(Cancel(db, o, u).db, o, u).db.products
    ensures Stock(Cancel(Cancel(db, o, u).db, o, u).db.products, p)
         == Stock(db.products, p) + 2 * Requested(ItemLines(db.orders[o].items), p)
  {
    ItemsInCatalog(db, o);
    var lines := ItemLines(db.orders[o].items);
    var db1 := Cancel(db, o, u).db;
    RestockedStock(db.products, lines, p);
    CoversSameCatalog(db.products, db1.products, lines);
    RestockedStock(db1.products, lines, p);
  }

  /** `updateOrderStatus` moves a PENDING order straight to DELIVERED, and any order that is not
      DELIVERED or CANCELED back to PENDING. */
  lemma UpdateStatusSkipsStates(db: Db, o: OrderId)
    requires Valid(db) && o in db.orders
    ensures db.orders[o].status == OrderStatus.Pending ==> UpdateStatus(db, o, OrderStatus.Delivered).result.Ok?
    ensures StatusChangeAllowed(db.orders[o].status) ==> UpdateStatus(db, o, OrderStatus.Pending).result.Ok?
    ensures !StatusChangeAllowed(db.orders[o].status) ==> UpdateStatus(db, o, OrderStatus.Pending).db == db
  {
  }

  /** Approving twice is approving once: the second call finds the order PAID and does nothing,
      or the first failed and changed nothing, so the second fails the same way. */
  lemma ApproveIdempotent(db: Db, o: OrderId)
    requires Valid(db)
    ensures Approve(Approve(db, o).db, o).db == Approve(db, o).db
    ensures Approve(Approve(db, o).db, o).result == Approve(db, o).result
  {
  }

  /** A successful approval of an order that was not PAID takes every line out of stock exactly
      once and leaves every product it touched with a non-negative stock. */
  lemma ApproveTakesStockOnce(db: Db, o: OrderId)
    requires Valid(db) && o in db.orders && db.orders[o].status != OrderStatus.Paid
    requires Approve(db, o).result.Ok?
    ensures (ItemsInCatalog(db, o); Approve(db, o).db.products == Decremented(db.products, ItemLines(db.orders[o].items)))
    ensures forall i :: 0 <= i < |db.orders[o].items| ==>
      db.orders[o].items[i].productId in Approve(db, o).db.products &&
      Stock(Approve(db, o).db.products, db.orders[o].items[i].productId) >= 0
  {
    ItemsInCatalog(db, o);
    var db1 := WithStatus(db, o, OrderStatus.Paid);
    assert db1.products == db.products && db1.orders[o].items == db.orders[o].items;
  }

  /** Checkout already takes the lines out of stock, and approving the same order takes them out
      again: a product's stock drops by twice the ordered quantity over checkout and payment. */
  lemma CheckoutThenApproveTakesStockTwice(db: Db, u: UserId, now: Time, p: ProductId)
    requires Valid(db) && p in db.products
    requires Checkout(db, u, now).result.Ok?
    requires Approve(Checkout(db, u, now).db, db.nextOrderId).result.Ok?
    ensures p in Approve(Checkout(db, u, now).db, db.nextOrderId).db.products
    ensures Stock(Approve(Checkout(db, u, now).db, db.nextOrderId).db.products, p)
         == Stock(db.products, p) - 2 * Requested(CartLines(CartOf(db, u)), p)
  {
    var db1 := Checkout(db, u, now).db;
    var o := db.nextOrderId;
    var cart := CartOf(db, u);
    CartInCatalogOf(db, u);
    ItemLinesOfSnapshot(cart, db.nextItemId);
    CheckoutTakesStock(db, u, now, p);
    ApproveTakesStockOnce(db1, o);
    CoversSameCatalog(db.products, db1.products, CartLines(cart));
    DecrementedStock(db1.products, CartLines(cart), p);
  }

  /** Right after checkout, the stored total equals the total the order view recomputes. */
  lemma CheckoutTotalMatchesView(db: Db, u: UserId, now: Time)
    requires Valid(db)
    requires Checkout(db, u, now).result.Ok?
    ensures var s := Checkout(db, u, now);
      s.db.orders[db.nextOrderId].total == Some(s.result.value.totalAmount)
  {
    var s := Checkout(db, u, now);
    var order := s.db.orders[db.nextOrderId];
    ItemsInCatalog(s.db, db.nextOrderId);
    OrderViewTotals(order, s.db.users[order.buyerId], s.db.products);
  }

  /** After a shipping cost is set, the stored total equals the total the order view recomputes,
      shipping included. */
  lemma ShippingTotalMatchesView(db: Db, o: OrderId, cost: Option<Money>)
    requires Valid(db)
    requires UpdateShippingCost(db, o, cost).result.Ok?
    ensures var s := UpdateShippingCost(db, o, cost);
      s.db.orders[o].total == Some(ViewOf(s.db, o).totalAmount)
      && ViewOf(s.db, o).shippingCost == cost.value
  {
    var s := UpdateShippingCost(db, o, cost);
    var order := s.db.orders[o];
    ItemsInCatalog(s.db, o);
    assert OrderValid(s.db, o);
    StoredSubtotalsAreLinesAmount(order.items);
    OrderViewTotals(order, s.db.users[order.buyerId], s.db.products);
  }
}

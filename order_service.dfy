/** `OrderService` over the mutable store: each method changes the tables step by step, as the
    service does through its entity setters and repositories, and is proved to end in the state
    (and with the result) that `OrderLifecycle` specifies. A method that throws restores the state
    it started from, as the enclosing transaction's rollback does. */
module OrderService {
  import opened Common
  import opened Domain
  import opened StockLedger
  import opened OrderViews
  import opened OrderLifecycle
  import opened Repository

  /** `createOrderFromCart`: the checks, then one pass over the cart that snapshots each row into
      an order line, adds its subtotal to the total and takes its quantity out of stock. */
  method CreateOrderFromCart(db: Store, u: UserId, now: Time) returns (r: Result<OrderView, OrderError>)
    requires db.Valid()
    modifies db
    ensures Step(r, db.Snapshot()) == Checkout(old(db.Snapshot()), u, now)
  {
    ghost var db0 := db.Snapshot();
    if u !in db.users {
      return Err(UserNotFound(u));
    }
    var cart := if u in db.carts then db.carts[u] else [];
    if cart == [] {
      return Err(EmptyCart(u));
    }
    CartInCatalogOf(db0, u);
    var shortage := ValidateStock(db.products, cart);
    if shortage.Some? {
      return Err(InsufficientStock(shortage.value.productName, shortage.value.available, shortage.value.requested));
    }

    var items, total := ConvertCartItems(db, cart);

    var id := db.nextOrderId;
    db.orders := db.orders[id := Order(id, u, now, OrderStatus.Pending, items, None, Some(total))];
    db.nextOrderId := db.nextOrderId + 1;
    db.nextItemId := db.nextItemId + |cart|;
    db.carts := db.carts[u := []];
    assert db.Snapshot() == PlaceOrder(db0, u, now);
    return Ok(ViewOf(db.Snapshot(), id));
  }

  /** The loop of `createOrderFromCart`: each cart row becomes an order line at the cart's price,
      its subtotal is added to the running total, and its quantity leaves its product's stock. */
  method ConvertCartItems(db: Store, cart: seq<CartItem>) returns (items: seq<OrderItem>, total: Money)
    requires Covers(db.products, CartLines(cart))
    modifies db
    ensures items == SnapshotItems(cart, db.nextItemId)
    ensures total == LinesAmount(items)
    ensures db.products == Decremented(old(db.products), CartLines(cart))
    ensures db.Snapshot() == old(db.Snapshot()).(products := db.products)
  {
    ghost var c0 := db.products;
    ghost var lines := CartLines(cart);
    items := [];
    total := 0.0;
    var firstId := db.nextItemId;
    assert lines[..0] == [] && cart[..0] == [];
    var i := 0;
    while i < |cart|
      invariant 0 <= i <= |cart|
      invariant items == SnapshotItems(cart[..i], firstId)
      invariant total == LinesAmount(items)
      invariant db.products == Decremented(c0, lines[..i])
      invariant db.Snapshot() == old(db.Snapshot()).(products := db.products)
    {
      var row := cart[i];
      var subtotal := Times(row.price, row.quantity);
      var item := OrderItem(firstId + i, row.productId, row.quantity, row.price, subtotal);
      LinesAmountAppend(items, item);
      SnapshotItemsAppend(cart, firstId, i);
      items := items + [item];
      total := total + subtotal;
      TakeOutOfStock(db, c0, lines, i, row);
      i := i + 1;
    }
    assert lines[..|cart|] == lines;
    assert cart[..|cart|] == cart;
  }

  /** The stock step of one cart row: its quantity leaves its product's stock. */
  method TakeOutOfStock(db: Store, ghost c0: map<ProductId, Product>, ghost lines: seq<Line>, i: nat, row: CartItem)
    requires Covers(c0, lines) && i < |lines| && lines[i] == Line(row.productId, row.quantity)
    requires db.products == Decremented(c0, lines[..i])
    modifies db
    ensures db.products == Decremented(c0, lines[..i + 1])
    ensures db.Snapshot() == old(db.Snapshot()).(products := db.products)
  {
    DecrementedAppend(c0, lines, i);
    assert lines[i].productId == row.productId && lines[i].quantity == row.quantity;
    var stock := Adjust(db.products, row.productId, -row.quantity);
    assert stock == Decremented(c0, lines[..i + 1]);
    db.products := stock;
  }

  /** `updateOrderStatus`, with `validateStatusTransition` as its guard. */
  method UpdateOrderStatus(db: Store, o: OrderId, target: OrderStatus) returns (r: Result<OrderView, OrderError>)
    requires db.Valid()
    modifies db
    ensures Step(r, db.Snapshot()) == UpdateStatus(old(db.Snapshot()), o, target)
  {
    if o !in db.orders {
      return Err(OrderNotFound(o));
    }
    var current := db.orders[o].status;
    if !StatusChangeAllowed(current) {
      return Err(InvalidOrderStatus(current));
    }
    ghost var db0 := db.Snapshot();
    db.orders := db.orders[o := db.orders[o].(status := target)];
    assert db.Snapshot() == WithStatus(db0, o, target);
    return Ok(ViewOf(db.Snapshot(), o));
  }

  /** `returnStockFromOrder`: each line's quantity is added back to its product's stock. */
  method ReturnStockFromOrder(db: Store, items: seq<OrderItem>)
    requires Covers(db.products, ItemLines(items))
    modifies db
    ensures db.products == Restocked(old(db.products), ItemLines(items))
    ensures db.Snapshot() == old(db.Snapshot()).(products := db.products)
  {
    ghost var c0 := db.products;
    ghost var lines := ItemLines(items);
    var i := 0;
    while i < |items|
      invariant 0 <= i <= |items|
      invariant Covers(c0, lines[..i])
      invariant db.products == Restocked(c0, lines[..i])
      invariant db.Snapshot() == old(db.Snapshot()).(products := db.products)
    {
      RestockedAppend(c0, lines, i);
      db.products := Adjust(db.products, items[i].productId, items[i].quantity);
      i := i + 1;
    }
    assert lines[..|items|] == lines;
  }

  /** `cancelOrder`: the ownership and status checks, then CANCELED and the stock given back. */
  method CancelOrder(db: Store, o: OrderId, u: UserId) returns (r: Result<OrderView, OrderError>)
    requires db.Valid()
    modifies db
    ensures Step(r, db.Snapshot()) == Cancel(old(db.Snapshot()), o, u)
  {
    if o !in db.orders {
      return Err(OrderNotFound(o));
    }
    if db.orders[o].buyerId != u {
      return Err(NotOrderOwner(u));
    }
    var current := db.orders[o].status;
    if current == OrderStatus.Delivered || current == OrderStatus.Shipped {
      return Err(InvalidOrderStatus(current));
    }
    ghost var db0 := db.Snapshot();
    ItemsInCatalog(db0, o);
    db.orders := db.orders[o := db.orders[o].(status := OrderStatus.Canceled)];
    ReturnStockFromOrder(db, db.orders[o].items);
    assert db.Snapshot() == CancelAndRestock(db0, o);
    return Ok(ViewOf(db.Snapshot(), o));
  }

  /** `deleteOrder`: only a CANCELED order is deleted, and the payments' foreign key is enforced. */
  method DeleteOrder(db: Store, o: OrderId) returns (r: Result<(), OrderError>)
    requires db.Valid()
    modifies db
    ensures Step(r, db.Snapshot()) == Delete(old(db.Snapshot()), o)
  {
    if o !in db.orders {
      return Err(OrderNotFound(o));
    }
    if db.orders[o].status != OrderStatus.Canceled {
      return Err(NotCanceled(db.orders[o].status));
    }
    if exists i :: 0 <= i < |db.payments| && db.payments[i].orderId == o {
      return Err(StillReferenced(o));
    }
    db.orders := db.orders - {o};
    return Ok(());
  }

  /** `updateShippingCost`: a PENDING order gets the cost and a total of stored subtotals plus cost;
      a null cost throws at the addition, and the rollback leaves the order as it was. */
  method UpdateOrderShippingCost(db: Store, o: OrderId, cost: Option<Money>) returns (r: Result<OrderView, OrderError>)
    requires db.Valid()
    modifies db
    ensures Step(r, db.Snapshot()) == UpdateShippingCost(old(db.Snapshot()), o, cost)
  {
    if o !in db.orders {
      return Err(OrderMissing(o));
    }
    var order := db.orders[o];
    if order.status != OrderStatus.Pending {
      return Err(ShippingLocked(order.status));
    }
    var itemsTotal := StoredSubtotalSum(order.items);
    if cost.None? {
      return Err(NullShippingCost(o));
    }
    db.orders := db.orders[o := order.(shippingCost := cost, total := Some(itemsTotal + cost.value))];
    return Ok(StoredViewOf(db.Snapshot(), o));
  }

  /** `decrementStock`: each line in turn lowers its product's stock; the first line that would
      make a stock negative aborts, and the rollback restores every stock already lowered. */
  method DecrementOrderStock(db: Store, o: OrderId) returns (r: Result<(), OrderError>)
    requires db.Valid()
    modifies db
    ensures Step(r, db.Snapshot()) == DecrementStock(old(db.Snapshot()), o)
  {
    if o !in db.orders {
      return Err(OrderMissing(o));
    }
    ghost var db0 := db.Snapshot();
    ItemsInCatalog(db0, o);
    var stockBefore := db.products;
    var items := db.orders[o].items;
    ghost var lines := ItemLines(items);
    var i := 0;
    while i < |items|
      invariant 0 <= i <= |items|
      invariant Covers(db0.products, lines[..i])
      invariant Admits(db0.products, lines[..i])
      invariant db.products == Decremented(db0.products, lines[..i])
      invariant db.Snapshot() == db0.(products := db.products)
    {
      assert lines[..i + 1][..i] == lines[..i];
      DecrementedAppend(db0.products, lines, i);
      assert lines[i] == Line(items[i].productId, items[i].quantity);
      var product := db.products[items[i].productId];
      var newQty := product.stockQuantity - items[i].quantity;
      if newQty < 0 {
        CheckedDecrementFirstFailure(db0.products, lines, i);
        db.products := stockBefore;
        return Err(StockExhausted(product.productName));
      }
      var stock := db.products[items[i].productId := product.(stockQuantity := newQty)];
      AdjustSetsStock(db.products, items[i].productId, -items[i].quantity, newQty);
      db.products := stock;
      i := i + 1;
    }
    assert lines[..|items|] == lines;
    return Ok(());
  }

  /** `approveOrder`: nothing for a PAID order; otherwise PAID, then `decrementStock`, and a
      failure there rolls the status back too. */
  method ApproveOrder(db: Store, o: OrderId) returns (r: Result<(), OrderError>)
    requires db.Valid()
    modifies db
    ensures Step(r, db.Snapshot()) == Approve(old(db.Snapshot()), o)
  {
    if o !in db.orders {
      return Err(OrderMissing(o));
    }
    if db.orders[o].status == OrderStatus.Paid {
      return Ok(());
    }
    ghost var db0 := db.Snapshot();
    var ordersBefore := db.orders;
    db.orders := db.orders[o := db.orders[o].(status := OrderStatus.Paid)];
    assert db.Snapshot() == WithStatus(db0, o, OrderStatus.Paid);
    r := DecrementOrderStock(db, o);
    if r.Err? {
      db.orders := ordersBefore;
    }
  }
}

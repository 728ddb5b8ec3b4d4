/** The order views returned to clients: `OrderItemResponseDTO.from` and `OrderResponseDTO.from`.
    Subtotals, the total and the item count are recomputed from the order lines every time. */
module OrderViews {
  import opened Common
  import opened Domain

  datatype OrderItemView = OrderItemView(
    orderItemId: int,
    productId: ProductId,
    productName: string,
    quantity: int,
    priceAtTheTime: Money,
    subtotal: Money)

  datatype OrderView = OrderView(
    orderId: OrderId,
    buyerId: UserId,
    buyerName: string,
    buyerEmail: string,
    orderDate: Time,
    status: OrderStatus,
    items: seq<OrderItemView>,
    shippingCost: Money,
    totalAmount: Money,
    totalItems: int)

  /** `OrderItemResponseDTO.from(orderItem)`: ids and quantity copied, the frozen unit price shown,
      and the subtotal recomputed as unit price times quantity. */
  function ItemView(item: OrderItem, product: Product): OrderItemView
  {
    OrderItemView(item.orderItemId, product.productId, product.productName, item.quantity,
                  item.unitPrice, Times(item.unitPrice, item.quantity))
  }

  /** `OrderItemResponseDTO::from` applied to every line, in order. */
  function ItemViews(items: seq<OrderItem>, products: map<ProductId, Product>): (vs: seq<OrderItemView>)
    requires forall i :: 0 <= i < |items| ==> items[i].productId in products
    ensures |vs| == |items|
    ensures forall i :: 0 <= i < |items| ==> vs[i] == ItemView(items[i], products[items[i].productId])
  {
    seq(|items|, i requires 0 <= i < |items| => ItemView(items[i], products[items[i].productId]))
  }

  /** The item view `OrderService.toDTO` builds: the same fields, but the subtotal is the one
      stored on the order line instead of a recomputed one. */
  function StoredItemView(item: OrderItem, product: Product): OrderItemView
  {
    OrderItemView(item.orderItemId, product.productId, product.productName, item.quantity,
                  item.unitPrice, item.subtotal)
  }

  function StoredItemViews(items: seq<OrderItem>, products: map<ProductId, Product>): (vs: seq<OrderItemView>)
    requires forall i :: 0 <= i < |items| ==> items[i].productId in products
    ensures |vs| == |items|
    ensures forall i :: 0 <= i < |items| ==> vs[i] == StoredItemView(items[i], products[items[i].productId])
  {
    seq(|items|, i requires 0 <= i < |items| => StoredItemView(items[i], products[items[i].productId]))
  }

  /** Where each stored subtotal is unit price times quantity, both ways of building the item views agree. */
  lemma StoredItemViewsAgree(items: seq<OrderItem>, products: map<ProductId, Product>)
    requires forall i :: 0 <= i < |items| ==> items[i].productId in products
    requires forall i :: 0 <= i < |items| ==> items[i].subtotal == Times(items[i].unitPrice, items[i].quantity)
    ensures StoredItemViews(items, products) == ItemViews(items, products)
  {
  }

  /** `items.stream().map(OrderItemResponseDTO::subtotal).reduce(ZERO, add)`. */
  function SubtotalSum(vs: seq<OrderItemView>): Money
  {
    if vs == [] then 0.0 else SubtotalSum(vs[..|vs| - 1]) + vs[|vs| - 1].subtotal
  }

  /** `items.stream().map(OrderItemResponseDTO::quantity).reduce(0, Integer::sum)`. */
  function QuantitySum(vs: seq<OrderItemView>): int
  {
    if vs == [] then 0 else QuantitySum(vs[..|vs| - 1]) + vs[|vs| - 1].quantity
  }

  /** The amount of the order lines at their frozen prices: the sum of unit price times quantity. */
  function LinesAmount(items: seq<OrderItem>): Money
  {
    if items == [] then 0.0
    else LinesAmount(items[..|items| - 1]) + Times(items[|items| - 1].unitPrice, items[|items| - 1].quantity)
  }

  /** The sum of the subtotals stored on the order lines (what `updateShippingCost` adds up). */
  function StoredSubtotalSum(items: seq<OrderItem>): Money
  {
    if items == [] then 0.0 else StoredSubtotalSum(items[..|items| - 1]) + items[|items| - 1].subtotal
  }

  /** The sum of the order lines' quantities. */
  function LinesQuantity(items: seq<OrderItem>): int
  {
    if items == [] then 0 else LinesQuantity(items[..|items| - 1]) + items[|items| - 1].quantity
  }

  /** A null shipping cost counts as zero. */
  function ShippingOrZero(order: Order): Money
  {
    if order.shippingCost.Some? then order.shippingCost.value else 0.0
  }

  /** `OrderResponseDTO.from(order, items)`: header fields copied from the order and its buyer,
      shipping defaulted to zero, total = sum of the item views' subtotals + shipping, and
      the item count = sum of their quantities. The stored order total is never read. */
  function OrderViewOf(order: Order, buyer: User, items: seq<OrderItemView>): (v: OrderView)
    ensures v.orderId == order.orderId && v.status == order.status && v.orderDate == order.orderDate
    ensures v.buyerId == buyer.userId && v.buyerName == buyer.username && v.buyerEmail == buyer.email
    ensures v.items == items
    ensures v.shippingCost == ShippingOrZero(order)
    ensures order.shippingCost.None? ==> v.shippingCost == 0.0
    ensures order.shippingCost.Some? ==> v.shippingCost == order.shippingCost.value
  {
    var shipping := ShippingOrZero(order);
    OrderView(order.orderId, buyer.userId, buyer.username, buyer.email, order.orderDate, order.status,
              items, shipping, SubtotalSum(items) + shipping, QuantitySum(items))
  }

  /** The item views' subtotals add up to the lines' amount at their frozen prices,
      whatever the products' current prices and whatever subtotals are stored. */
  lemma {:induction false} SubtotalSumOfItemViews(items: seq<OrderItem>, products: map<ProductId, Product>)
    requires forall i :: 0 <= i < |items| ==> items[i].productId in products
    ensures SubtotalSum(ItemViews(items, products)) == LinesAmount(items)
  {
    if items != [] {
      var n := |items| - 1;
      assert ItemViews(items, products)[..n] == ItemViews(items[..n], products);
      SubtotalSumOfItemViews(items[..n], products);
    }
  }

  /** The item views' quantities add up to the lines' quantities. */
  lemma {:induction false} QuantitySumOfItemViews(items: seq<OrderItem>, products: map<ProductId, Product>)
    requires forall i :: 0 <= i < |items| ==> items[i].productId in products
    ensures QuantitySum(ItemViews(items, products)) == LinesQuantity(items)
  {
    if items != [] {
      var n := |items| - 1;
      assert ItemViews(items, products)[..n] == ItemViews(items[..n], products);
      QuantitySumOfItemViews(items[..n], products);
    }
  }

  /** Where every stored subtotal is unit price times quantity, the stored subtotals add up
      to the lines' amount. */
  lemma {:induction false} StoredSubtotalsAreLinesAmount(items: seq<OrderItem>)
    requires forall i :: 0 <= i < |items| ==> items[i].subtotal == Times(items[i].unitPrice, items[i].quantity)
    ensures StoredSubtotalSum(items) == LinesAmount(items)
  {
    if items != [] {
      StoredSubtotalsAreLinesAmount(items[..|items| - 1]);
    }
  }

  /** With non-negative prices and quantities every item subtotal is non-negative, and so is the lines' amount. */
  lemma {:induction false} LinesAmountNonNegative(items: seq<OrderItem>)
    requires forall i :: 0 <= i < |items| ==> items[i].unitPrice >= 0.0 && items[i].quantity >= 0
    ensures LinesAmount(items) >= 0.0
  {
    if items != [] {
      var last := items[|items| - 1];
      TimesNonNegative(last.unitPrice, last.quantity);
      LinesAmountNonNegative(items[..|items| - 1]);
    }
  }

  /** The item view ignores the product's current price and the stored subtotal: it shows the
      frozen unit price and a subtotal recomputed from it, which is non-negative when the price
      and quantity are. */
  lemma ItemViewUsesFrozenPrice(item: OrderItem, product: Product, currentPrice: Money, storedSubtotal: Money)
    ensures ItemView(item, product) == ItemView(item.(subtotal := storedSubtotal), product.(productPrice := currentPrice))
    ensures ItemView(item, product).priceAtTheTime == item.unitPrice
    ensures item.unitPrice >= 0.0 && item.quantity >= 0 ==> ItemView(item, product).subtotal >= 0.0
  {
    if item.unitPrice >= 0.0 && item.quantity >= 0 {
      TimesNonNegative(item.unitPrice, item.quantity);
    }
  }

  /** The view of an order: its lines shown against the catalogue, its buyer's fields copied,
      its amount recomputed. */
  lemma OrderViewTotals(order: Order, buyer: User, products: map<ProductId, Product>)
    requires forall i :: 0 <= i < |order.items| ==> order.items[i].productId in products
    ensures OrderViewOf(order, buyer, ItemViews(order.items, products)).totalAmount
         == LinesAmount(order.items) + ShippingOrZero(order)
    ensures OrderViewOf(order, buyer, ItemViews(order.items, products)).totalItems == LinesQuantity(order.items)
    ensures order.items == [] ==> OrderViewOf(order, buyer, ItemViews(order.items, products)).totalItems == 0
  {
    SubtotalSumOfItemViews(order.items, products);
    QuantitySumOfItemViews(order.items, products);
  }

  lemma LinesAmountAppend(items: seq<OrderItem>, item: OrderItem)
    ensures LinesAmount(items + [item]) == LinesAmount(items) + Times(item.unitPrice, item.quantity)
  {
    assert (items + [item])[..|items|] == items;
  }
}

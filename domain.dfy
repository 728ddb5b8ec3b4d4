/** The persisted entities of the marketplace backend (its JPA entities and enums) and one
    snapshot of the database that holds them. */
module Domain {
  import opened Common

  type UserId = int
  type ProductId = int
  type OrderId = int

  /** `LocalDateTime` values, as a count of seconds; finer precision plays no role here. */
  type Time = int

  /** `OrderStatus`. */
  datatype OrderStatus = Paid | Pending | Processing | Shipped | Delivered | Canceled

  /** `PaymentStatus`, as `PaymentService` uses it. */
  datatype PaymentStatus = Pending | Completed | Refunded | Failed

  /** `PaymentMethod` (the source spells its first constant `CREIDIT_CARD`). */
  datatype PaymentMethod = CreditCard | DebitCard | Pix | Cash | BankTransfer

  datatype User = User(userId: UserId, username: string, email: string)

  /** A catalogue entry; `stockQuantity` is the stock ledger's balance for it. */
  datatype Product = Product(productId: ProductId, productName: string, productPrice: Money, stockQuantity: int)

  /** A row of a user's cart, with the price captured when it was added. */
  datatype CartItem = CartItem(cartItemId: int, productId: ProductId, quantity: int, price: Money)

  /** A line of an order: quantity and unit price frozen at checkout, and the stored subtotal. */
  datatype OrderItem = OrderItem(orderItemId: int, productId: ProductId, quantity: int, unitPrice: Money, subtotal: Money)

  datatype Order = Order(
    orderId: OrderId,
    buyerId: UserId,
    orderDate: Time,
    status: OrderStatus,
    items: seq<OrderItem>,
    shippingCost: Option<Money>,
    total: Option<Money>)

  datatype Payment = Payment(
    paymentId: int,
    amount: Money,
    paymentDate: Time,
    paymentMethod: PaymentMethod,
    status: PaymentStatus,
    transactionId: string,
    idempotencyKey: string,
    orderId: OrderId)

  /** The message `PaymentProducer` puts on the payment-success queue (`PaymentEventDTO`). */
  datatype PaymentEvent = PaymentEvent(orderId: OrderId, email: string, amount: Money, status: string, transactionId: string)

  /** The payment confirmation `EmailService` sends. */
  datatype Confirmation = Confirmation(recipient: string, orderId: OrderId, amount: Money)

  /** One state of the database: the tables the services read and write, and the identity
      generators of the orders and order items. Payments are kept in insertion order. */
  datatype Db = Db(
    users: map<UserId, User>,
    products: map<ProductId, Product>,
    carts: map<UserId, seq<CartItem>>,
    orders: map<OrderId, Order>,
    payments: seq<Payment>,
    nextOrderId: OrderId,
    nextItemId: int)

  /** `cartItemRepository.findByUser`: the user's cart rows, in repository order. */
  function CartOf(db: Db, u: UserId): seq<CartItem>
  {
    if u in db.carts then db.carts[u] else []
  }

  /** What an order row satisfies in a consistent database: its key, a generated id below the
      generator, an existing buyer, existing products, and subtotals that are unit price times quantity. */
  predicate OrderValid(db: Db, o: OrderId)
    requires o in db.orders
  {
    var order := db.orders[o];
    && order.orderId == o
    && o < db.nextOrderId
    && order.buyerId in db.users
    && (forall i :: 0 <= i < |order.items| ==> order.items[i].productId in db.products)
    && (forall i :: 0 <= i < |order.items| ==> order.items[i].subtotal == Times(order.items[i].unitPrice, order.items[i].quantity))
  }

  /** The foreign keys and generated identities the database enforces, and the line subtotals
      every operation keeps equal to unit price times quantity. */
  predicate Valid(db: Db)
  {
    && (forall p :: p in db.products ==> db.products[p].productId == p)
    && (forall u :: u in db.users ==> db.users[u].userId == u)
    && (forall u, i :: u in db.carts && 0 <= i < |db.carts[u]| ==> db.carts[u][i].productId in db.products)
    && (forall o :: o in db.orders ==> OrderValid(db, o))
    && (forall i :: 0 <= i < |db.payments| ==> db.payments[i].orderId in db.orders)
  }

  /** Two catalogues that differ at most in stock quantities. */
  predicate SameCatalog(c: map<ProductId, Product>, d: map<ProductId, Product>)
  {
    && c.Keys == d.Keys
    && forall p :: p in c ==> d[p] == c[p].(stockQuantity := d[p].stockQuantity)
  }

  lemma SameCatalogTransitive(c: map<ProductId, Product>, d: map<ProductId, Product>, e: map<ProductId, Product>)
    requires SameCatalog(c, d) && SameCatalog(d, e)
    ensures SameCatalog(c, e)
  {
  }

  /** Changing only stock quantities keeps a consistent database consistent. */
  lemma StockChangeKeepsValid(db: Db, c: map<ProductId, Product>)
    requires Valid(db) && SameCatalog(db.products, c)
    ensures Valid(db.(products := c))
  {
    var db' := db.(products := c);
    forall o | o in db'.orders ensures OrderValid(db', o) {
      assert OrderValid(db, o);
    }
  }
}

/** The repositories the services share, as one mutable store: each table is a field that the
    services reassign, and `Snapshot` reads the whole state as a `Db` value. */
module Repository {
  import opened Common
  import opened Domain

  class Store {
    var users: map<UserId, User>
    var products: map<ProductId, Product>
    var carts: map<UserId, seq<CartItem>>
    var orders: map<OrderId, Order>
    var payments: seq<Payment>
    var nextOrderId: OrderId
    var nextItemId: int

    /** The whole database as a value. */
    function Snapshot(): (d: Db)
      reads this
      ensures d.products == products && d.orders == orders && d.payments == payments
      ensures d.users == users && d.carts == carts
      ensures d.nextOrderId == nextOrderId && d.nextItemId == nextItemId
    {
      Db(users, products, carts, orders, payments, nextOrderId, nextItemId)
    }

    /** The constraints the database enforces hold of the current state. */
    predicate Valid()
      reads this
    {
      Domain.Valid(Snapshot())
    }

    constructor (d: Db)
      ensures Snapshot() == d
    {
      users := d.users;
      products := d.products;
      carts := d.carts;
      orders := d.orders;
      payments := d.payments;
      nextOrderId := d.nextOrderId;
      nextItemId := d.nextItemId;
    }
  }
}

/** `PaymentListener.handlePaymentSuccess`: a payment-success message marks its order PAID and
    sends the buyer a confirmation, in one transaction. */
module PaymentListener {
  import opened Common
  import opened Domain
  import opened StockLedger
  import opened OrderLifecycle
  import opened Repository

  /** What `EmailService.sendPaymentConfirmation` does: the mail goes out; composing it fails with
      a `MessagingException`, which the e-mail service only logs; or the transport fails with an
      unchecked exception, which reaches the listener. */
  datatype MailResult = Sent | Refused | Crashed

  datatype ListenerError = UnknownOrder(orderId: OrderId) | MailCrashed

  datatype Handled = Handled(result: Result<(), ListenerError>, db: Db, sent: seq<Confirmation>)

  /** An unknown order is an error; otherwise the order becomes PAID whatever its status, with no
      stock or payment change, and the confirmation is sent; an exception out of the mail
      transport is rethrown and rolls the status back. */
  function PaymentSuccess(db: Db, sent: seq<Confirmation>, e: PaymentEvent, mail: MailResult): (h: Handled)
    requires Valid(db)
    ensures Valid(h.db)
    ensures h.result.Err? ==> h.db == db && h.sent == sent
    ensures h.result == Err(UnknownOrder(e.orderId)) <==> e.orderId !in db.orders
    ensures h.result == Err(MailCrashed) <==> e.orderId in db.orders && mail == Crashed
    ensures h.result.Ok? ==>
      && e.orderId in db.orders
      && h.db == db.(orders := db.orders[e.orderId := db.orders[e.orderId].(status := OrderStatus.Paid)])
      && h.sent == sent + (if mail == Sent then [Confirmation(e.email, e.orderId, e.amount)] else [])
  {
    if e.orderId !in db.orders then Handled(Err(UnknownOrder(e.orderId)), db, sent)
    else if mail == Crashed then Handled(Err(MailCrashed), db, sent)
    else
      var db' := WithStatus(db, e.orderId, OrderStatus.Paid);
      Handled(Ok(()), db', if mail == Sent then sent + [Confirmation(e.email, e.orderId, e.amount)] else sent)
  }

  /** A redelivered message leaves the order PAID as before, and the buyer is mailed again. */
  lemma RedeliveryMailsAgain(db: Db, sent: seq<Confirmation>, e: PaymentEvent)
    requires Valid(db) && e.orderId in db.orders
    ensures var once := PaymentSuccess(db, sent, e, Sent);
      var twice := PaymentSuccess(once.db, once.sent, e, Sent);
      && twice.result.Ok? && twice.db == once.db
      && twice.sent == sent + [Confirmation(e.email, e.orderId, e.amount), Confirmation(e.email, e.orderId, e.amount)]
  {
    var once := PaymentSuccess(db, sent, e, Sent);
    var o := e.orderId;
    assert once.db.orders[o := once.db.orders[o].(status := OrderStatus.Paid)] == once.db.orders;
  }

  /** A canceled order is paid too: it becomes PAID and keeps the stock its cancellation gave back. */
  lemma PaysCanceledOrder(db: Db, o: OrderId, u: UserId, sent: seq<Confirmation>, e: PaymentEvent, mail: MailResult)
    requires Valid(db) && e.orderId == o && mail != Crashed
    requires Cancel(db, o, u).result.Ok?
    ensures var canceled := Cancel(db, o, u).db;
      var h := PaymentSuccess(canceled, sent, e, mail);
      && canceled.orders[o].status == OrderStatus.Canceled
      && h.result.Ok? && h.db.orders[o].status == OrderStatus.Paid
      && h.db.products == canceled.products
      && (ItemsInCatalog(db, o); h.db.products == Restocked(db.products, ItemLines(db.orders[o].items)))
  {
  }

  /** The two routes to PAID disagree on stock: when the message is handled first, the later
      approval finds the order PAID and takes nothing out of stock. */
  lemma MessageFirstSkipsApprovalStock(db: Db, sent: seq<Confirmation>, e: PaymentEvent, mail: MailResult)
    requires Valid(db) && e.orderId in db.orders && mail != Crashed
    ensures var h := PaymentSuccess(db, sent, e, mail);
      && Approve(h.db, e.orderId) == Step(Ok(()), h.db)
      && h.db.products == db.products
  {
  }

  /** The confirmation mailer, as the list of confirmations sent. */
  class Mailer {
    var sent: seq<Confirmation>

    constructor ()
      ensures sent == []
    {
      sent := [];
    }

    method Deliver(c: Confirmation)
      modifies this
      ensures sent == old(sent) + [c]
    {
      sent := sent + [c];
    }
  }

  /** `handlePaymentSuccess` over the store: load, set PAID, save, mail; a rethrown exception
      rolls the status back. */
  method HandlePaymentSuccess(db: Store, mailer: Mailer, e: PaymentEvent, mail: MailResult)
    returns (r: Result<(), ListenerError>)
    requires db.Valid()
    modifies db, mailer
    ensures Handled(r, db.Snapshot(), mailer.sent) == PaymentSuccess(old(db.Snapshot()), old(mailer.sent), e, mail)
  {
    if e.orderId !in db.orders {
      return Err(UnknownOrder(e.orderId));
    }
    var ordersBefore := db.orders;
    db.orders := db.orders[e.orderId := db.orders[e.orderId].(status := OrderStatus.Paid)];
    match mail {
      case Sent =>
        mailer.Deliver(Confirmation(e.email, e.orderId, e.amount));
        r := Ok(());
      case Refused =>
        r := Ok(());
      case Crashed =>
        db.orders := ordersBefore;
        r := Err(MailCrashed);
    }
  }
}

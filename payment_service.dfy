/** `PaymentService` over the mutable store and the message queue: each method writes the
    payment rows and publishes events step by step, and is proved to end in the ledger (and with
    the result) that `PaymentLogic` specifies. */
module PaymentService {
  import opened Common
  import opened Domain
  import opened PaymentMapping
  import opened PaymentLogic
  import opened Repository

  /** The payment-success queue, as the list of messages `PaymentProducer` has sent to it. */
  class EventQueue {
    var published: seq<PaymentEvent>

    constructor ()
      ensures published == []
    {
      published := [];
    }

    /** `sendPaymentSuccess`: the message joins the queue (a broker failure is only logged). */
    method Publish(e: PaymentEvent)
      modifies this
      ensures published == old(published) + [e]
    {
      published := published + [e];
    }
  }

  /** The store and the queue, read together as a ledger. */
  function LedgerOf(db: Store, queue: EventQueue): Ledger
    reads db, queue
  {
    Ledger(db.Snapshot(), queue.published)
  }

  /** `saveAndMapPayment`: the row's fields are set from the gateway payment, the row is inserted,
      and a COMPLETED payment is announced. */
  method SaveAndMapPayment(db: Store, queue: EventQueue, gp: GatewayPayment, o: OrderId, key: string, now: Time)
    returns (r: Result<Receipt, PaymentError>)
    requires LedgerValid(LedgerOf(db, queue)) && o in db.orders
    modifies db, queue
    ensures Outcome(r, LedgerOf(db, queue)) == SaveAndMap(old(LedgerOf(db, queue)), gp, o, key, now)
  {
    ghost var l0 := LedgerOf(db, queue);
    var tx := LongToString(gp.id);
    if exists i :: 0 <= i < |db.payments| && (db.payments[i].transactionId == tx || db.payments[i].idempotencyKey == key) {
      return Err(Unexpected);
    }
    var email := BuyerEmail(db.Snapshot(), o);
    var payment := Payment(|db.payments| + 1, gp.transactionAmount, now, MapPaymentMethod(gp.paymentMethodId),
                           MapGatewayStatus(gp.status), tx, key, o);
    db.payments := db.payments + [payment];
    if payment.status == PaymentStatus.Completed {
      queue.Publish(PaymentEvent(o, email, payment.amount, "COMPLETED", payment.transactionId));
    }
    assert payment == NewPayment(l0.db, gp, o, key, now);
    return Ok(ReceiptOf(payment, gp));
  }

  /** `createPaymentIntegration`: the checks in order, then the charge, then the row. */
  method CreatePaymentIntegration(db: Store, queue: EventQueue, req: PaymentRequest, methodId: Option<string>,
                                  now: Time, create: Creator)
    returns (r: Result<Receipt, PaymentError>, charge: Option<ChargeRequest>)
    requires LedgerValid(LedgerOf(db, queue))
    modifies db, queue
    ensures Attempt(r, LedgerOf(db, queue), charge) == CreatePayment(old(LedgerOf(db, queue)), req, methodId, now, create)
  {
    ghost var l0 := LedgerOf(db, queue);
    if req.idempotencyKey.None? {
      return Err(MissingIdempotencyKey), None;
    }
    var key := req.idempotencyKey.value;
    if exists i :: 0 <= i < |db.payments| && db.payments[i].idempotencyKey == key {
      return Err(AlreadyProcessed), None;
    }
    if req.orderId !in db.orders {
      return Err(OrderNotFound(req.orderId)), None;
    }
    var order := db.orders[req.orderId];
    if !PayerIsBuyer(db.Snapshot(), req) {
      return Err(NotOrderBuyer), None;
    }
    if order.total.None? || order.total.value <= 0.0 {
      return Err(InvalidAmount), None;
    }
    if NeedsCardToken(methodId) && MissingToken(req.token) {
      return Err(MissingCardToken), None;
    }
    var request := Charge(order, req, methodId, key);
    charge := Some(request);
    var created := create(request);
    match created {
      case ApiFailure(m) =>
        r := Err(GatewayRejected(m));
      case ClientFailure(m) =>
        r := Err(GatewayUnreachable(m));
      case OtherFailure =>
        r := Err(Unexpected);
      case Created(gp) =>
        r := SaveAndMapPayment(db, queue, gp, req.orderId, key, now);
    }
  }

  /** `updateLocalPaymentStatus`: the payment takes the mapped status if it differs, and a change
      into COMPLETED is announced; the answer says whether anything changed. */
  method UpdateLocalPaymentStatus(db: Store, queue: EventQueue, i: nat, raw: Option<string>) returns (changed: bool)
    requires LedgerValid(LedgerOf(db, queue)) && i < |db.payments|
    modifies db, queue
    ensures Update(changed, LedgerOf(db, queue)) == UpdateLocalStatus(old(LedgerOf(db, queue)), i, raw)
  {
    var newStatus := MapGatewayStatus(raw);
    if db.payments[i].status == newStatus {
      return false;
    }
    var payment := db.payments[i].(status := newStatus);
    assert Valid(db.Snapshot()) && payment.orderId in db.orders;
    var email := BuyerEmail(db.Snapshot(), payment.orderId);
    db.payments := db.payments[i := payment];
    if newStatus == PaymentStatus.Completed {
      queue.Publish(PaymentEvent(payment.orderId, email, payment.amount, "COMPLETED", payment.transactionId));
    }
    return true;
  }

  /** `processWebhook`. */
  method ProcessWebhookNotification(db: Store, queue: EventQueue, topic: Option<string>, id: Option<string>, fetch: Fetcher)
    returns (r: Result<(), PaymentError>)
    requires LedgerValid(LedgerOf(db, queue))
    modifies db, queue
    ensures Outcome(r, LedgerOf(db, queue)) == ProcessWebhook(old(LedgerOf(db, queue)), topic, id, fetch)
  {
    if topic != Some("payment") {
      return Ok(());
    }
    if id.None? {
      return Err(MalformedPaymentId);
    }
    var gatewayId := ParseLong(id.value);
    if gatewayId.None? {
      return Err(MalformedPaymentId);
    }
    var answer := fetch(gatewayId.value);
    if answer.Unreachable? {
      return Ok(());
    }
    var local := IndexOfTransaction(db.payments, id.value);
    if local.Some? {
      var _ := UpdateLocalPaymentStatus(db, queue, local.value, answer.status);
    }
    return Ok(());
  }

  /** One turn of the reconciliation loop: the stored id is parsed and the gateway asked; either
      failure is caught and leaves the payment alone. */
  method ReconcilePayment(db: Store, queue: EventQueue, i: nat, fetch: Fetcher)
    requires LedgerValid(LedgerOf(db, queue)) && i < |db.payments|
    modifies db, queue
    ensures LedgerOf(db, queue) == ReconcileOne(old(LedgerOf(db, queue)), i, fetch)
  {
    var gatewayId := ParseLong(db.payments[i].transactionId);
    if gatewayId.Some? {
      var answer := fetch(gatewayId.value);
      if answer.Found? {
        var _ := UpdateLocalPaymentStatus(db, queue, i, answer.status);
      }
    }
  }

  /** `reconcilePendingPayments`: the due payments are fetched once, then each is checked in turn;
      a failure on one is caught and the loop goes on with the next. */
  method ReconcilePendingPayments(db: Store, queue: EventQueue, now: Time, fetch: Fetcher)
    requires LedgerValid(LedgerOf(db, queue))
    modifies db, queue
    ensures LedgerOf(db, queue) == Reconcile(old(LedgerOf(db, queue)), now, fetch)
  {
    ghost var l0 := LedgerOf(db, queue);
    var due := DuePayments(db.payments, now - 300);
    if due == [] {
      return;
    }
    assert due[..0] == [];
    var k := 0;
    while k < |due|
      invariant 0 <= k <= |due|
      invariant LedgerOf(db, queue) == ReconcileAll(l0, due[..k], fetch)
    {
      ReconcileNext(db, queue, l0, due, k, fetch);
      k := k + 1;
    }
    assert due[..|due|] == due;
  }

  /** The body of the reconciliation loop: the `k`-th due payment is checked. */
  method ReconcileNext(db: Store, queue: EventQueue, ghost l0: Ledger, due: seq<nat>, k: nat, fetch: Fetcher)
    requires LedgerValid(l0) && k < |due|
    requires forall m :: 0 <= m < |due| ==> due[m] < |l0.db.payments|
    requires LedgerOf(db, queue) == ReconcileAll(l0, due[..k], fetch)
    modifies db, queue
    ensures LedgerOf(db, queue) == ReconcileAll(l0, due[..k + 1], fetch)
  {
    assert due[..k + 1] == due[..k] + [due[k]];
    ReconcileAllStep(l0, due[..k], due[k], fetch);
    ReconcilePayment(db, queue, due[k], fetch);
  }
}

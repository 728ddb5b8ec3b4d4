/** `PaymentService` as pure transitions of the payment ledger: the database together with the
    payment-success events handed to the message queue. The payment gateway is an oracle: one
    function answers a charge request, another answers a lookup by gateway id. */
module PaymentLogic {
  import opened Common
  import opened Domain
  import opened PaymentMapping

  // ---------------------------------------------------------------------------------------------
  // The gateway, as far as the service reads and writes it

  /** The PIX data of a gateway payment (`pointOfInteraction.transactionData`). */
  datatype QrData = QrData(qrCode: Option<string>, qrCodeBase64: Option<string>)

  /** A payment as the gateway returns it; `transactionData` is absent when either the point of
      interaction or its transaction data is null. */
  datatype GatewayPayment = GatewayPayment(
    id: int,
    status: Option<string>,
    paymentMethodId: Option<string>,
    transactionAmount: Money,
    transactionData: Option<QrData>)

  /** The card part of a charge: the token and the number of installments. */
  datatype CardData = CardData(token: string, installments: int)

  /** The `PaymentCreateRequest` built for an order, with the idempotency header sent beside it. */
  datatype ChargeRequest = ChargeRequest(
    amount: Money,
    description: string,
    paymentMethodId: Option<string>,
    externalReference: string,
    payerEmail: Option<string>,
    card: Option<CardData>,
    idempotencyKey: string)

  /** What `client.create` does: a created payment, an `MPApiException`, an `MPException`, or any
      other exception. */
  datatype CreateOutcome = Created(payment: GatewayPayment) | ApiFailure(message: string)
                         | ClientFailure(message: string) | OtherFailure

  type Creator = ChargeRequest -> CreateOutcome

  /** What `client.get` does: the payment's status, or an SDK exception. */
  datatype Fetched = Found(status: Option<string>) | Unreachable

  type Fetcher = int -> Fetched

  // ---------------------------------------------------------------------------------------------
  // Requests, answers, errors and the ledger

  /** `PaymentRequestDTO`; the idempotency key is the text of its UUID. */
  datatype PaymentRequest = PaymentRequest(
    orderId: OrderId,
    token: Option<string>,
    paymentMethodId: Option<string>,
    installments: Option<int>,
    email: Option<string>,
    idempotencyKey: Option<string>)

  /** `PaymentResponseDTO` as `mapToResponse` fills it (its ticket URL is always null). */
  datatype Receipt = Receipt(
    paymentId: int,
    transactionId: string,
    amount: Money,
    status: PaymentStatus,
    qrCode: Option<string>,
    qrCodeBase64: Option<string>)

  /** The `PaymentException`s of `createPaymentIntegration`, and the `NumberFormatException`
      that `processWebhook` lets escape. */
  datatype PaymentError =
    | MissingIdempotencyKey
    | AlreadyProcessed
    | OrderNotFound(orderId: OrderId)
    | NotOrderBuyer
    | InvalidAmount
    | MissingCardToken
    | GatewayRejected(message: string)
    | GatewayUnreachable(message: string)
    | Unexpected
    | MalformedPaymentId

  /** The database and the events published to the payment-success queue, oldest first. */
  datatype Ledger = Ledger(db: Db, events: seq<PaymentEvent>)

  datatype Outcome<T> = Outcome(result: Result<T, PaymentError>, ledger: Ledger)

  /** A payment attempt: its outcome, and the charge sent to the gateway, if one was sent. */
  datatype Attempt = Attempt(result: Result<Receipt, PaymentError>, ledger: Ledger, charge: Option<ChargeRequest>)

  /** The two unique columns of the payments table. */
  predicate UniqueKeys(payments: seq<Payment>)
  {
    forall i, j :: 0 <= i < j < |payments| ==>
      payments[i].transactionId != payments[j].transactionId && payments[i].idempotencyKey != payments[j].idempotencyKey
  }

  predicate LedgerValid(l: Ledger)
  {
    Valid(l.db) && UniqueKeys(l.db.payments)
  }

  /** `existsByIdempotencyKey`. */
  predicate KeyUsed(payments: seq<Payment>, key: string)
  {
    exists i :: 0 <= i < |payments| && payments[i].idempotencyKey == key
  }

  predicate TransactionStored(payments: seq<Payment>, tx: string)
  {
    exists i :: 0 <= i < |payments| && payments[i].transactionId == tx
  }

  /** `findByTransactionId`: the position of the payment with that gateway id. */
  function IndexOfTransaction(payments: seq<Payment>, tx: string): (r: Option<nat>)
    ensures r.Some? ==> r.value < |payments| && payments[r.value].transactionId == tx
    ensures r.None? <==> !TransactionStored(payments, tx)
  {
    if payments == [] then None
    else if payments[|payments| - 1].transactionId == tx then Some(|payments| - 1)
    else
      var r := IndexOfTransaction(payments[..|payments| - 1], tx);
      assert forall i :: 0 <= i < |payments| - 1 ==> payments[..|payments| - 1][i] == payments[i];
      r
  }

  /** With unique gateway ids, the lookup finds the one payment that carries the id. */
  lemma IndexOfTransactionUnique(payments: seq<Payment>, tx: string, i: nat)
    requires UniqueKeys(payments) && i < |payments| && payments[i].transactionId == tx
    ensures IndexOfTransaction(payments, tx) == Some(i)
  {
  }

  /** The e-mail of the buyer of a stored order. */
  function BuyerEmail(db: Db, o: OrderId): string
    requires Valid(db) && o in db.orders
  {
    assert OrderValid(db, o);
    db.users[db.orders[o].buyerId].email
  }

  /** The event `PaymentProducer.sendPaymentSuccess` receives for a completed payment (the
      status is the enum constant's name). */
  function CompletedEvent(db: Db, p: Payment): (e: PaymentEvent)
    requires Valid(db) && p.orderId in db.orders
    ensures e.orderId == p.orderId && e.amount == p.amount && e.transactionId == p.transactionId
    ensures e.status == "COMPLETED" && e.email == BuyerEmail(db, p.orderId)
  {
    PaymentEvent(p.orderId, BuyerEmail(db, p.orderId), p.amount, "COMPLETED", p.transactionId)
  }

  // ---------------------------------------------------------------------------------------------
  // saveAndMapPayment

  /** The payment row built from a gateway payment; its identity is the next one the table
      generates. */
  function NewPayment(db: Db, gp: GatewayPayment, o: OrderId, key: string, now: Time): Payment
  {
    Payment(|db.payments| + 1, gp.transactionAmount, now, MapPaymentMethod(gp.paymentMethodId),
            MapGatewayStatus(gp.status), LongToString(gp.id), key, o)
  }

  function ReceiptOf(p: Payment, gp: GatewayPayment): Receipt
  {
    var qr := if gp.transactionData.Some? then gp.transactionData.value.qrCode else None;
    var qr64 := if gp.transactionData.Some? then gp.transactionData.value.qrCodeBase64 else None;
    Receipt(p.paymentId, p.transactionId, p.amount, p.status, qr, qr64)
  }

  /** Inserting a row for an existing order whose gateway id and key are new keeps the ledger consistent. */
  lemma InsertKeepsValid(l: Ledger, p: Payment)
    requires LedgerValid(l) && p.orderId in l.db.orders
    requires !TransactionStored(l.db.payments, p.transactionId) && !KeyUsed(l.db.payments, p.idempotencyKey)
    ensures Valid(l.db.(payments := l.db.payments + [p]))
    ensures UniqueKeys(l.db.payments + [p])
  {
    var db' := l.db.(payments := l.db.payments + [p]);
    assert forall i :: 0 <= i < |l.db.payments| ==> db'.payments[i] == l.db.payments[i];
    assert forall o' :: o' in db'.orders ==> OrderValid(l.db, o');
  }

  /** `saveAndMapPayment`: the row is inserted (a gateway id or idempotency key already stored
      violates a unique column, which the caller reports as an unexpected error), and a COMPLETED
      payment is announced on the queue. */
  function SaveAndMap(l: Ledger, gp: GatewayPayment, o: OrderId, key: string, now: Time): (r: Outcome<Receipt>)
    requires LedgerValid(l) && o in l.db.orders
    ensures LedgerValid(r.ledger)
    ensures r.result.Err? <==> TransactionStored(l.db.payments, LongToString(gp.id)) || KeyUsed(l.db.payments, key)
    ensures r.result.Err? ==> r.result.error == Unexpected && r.ledger == l
    ensures r.result.Ok? ==> |r.ledger.db.payments| == |l.db.payments| + 1
    ensures r.result.Ok? ==>
      var p := r.ledger.db.payments[|l.db.payments|];
      && r.ledger.db == l.db.(payments := l.db.payments + [p])
      && p.status == MapGatewayStatus(gp.status) && p.paymentMethod == MapPaymentMethod(gp.paymentMethodId)
      && p.transactionId == LongToString(gp.id) && p.idempotencyKey == key && p.orderId == o
      && p.amount == gp.transactionAmount && p.paymentDate == now
      && r.result.value == ReceiptOf(p, gp)
      && r.ledger.events == l.events + (if p.status == PaymentStatus.Completed then [CompletedEvent(l.db, p)] else [])
  {
    if TransactionStored(l.db.payments, LongToString(gp.id)) || KeyUsed(l.db.payments, key) then
      Outcome(Err(Unexpected), l)
    else
      var p := NewPayment(l.db, gp, o, key, now);
      var db' := l.db.(payments := l.db.payments + [p]);
      InsertKeepsValid(l, p);
      var events := l.events + (if p.status == PaymentStatus.Completed then [CompletedEvent(l.db, p)] else []);
      Outcome(Ok(ReceiptOf(p, gp)), Ledger(db', events))
  }

  /** One stored payment and exactly one event if and only if the mapped status is COMPLETED;
      earlier payments and events stay as they were. */
  lemma SaveAndMapPublishesOnCompletion(l: Ledger, gp: GatewayPayment, o: OrderId, key: string, now: Time)
    requires LedgerValid(l) && o in l.db.orders
    requires SaveAndMap(l, gp, o, key, now).result.Ok?
    ensures var l' := SaveAndMap(l, gp, o, key, now).ledger;
      && |l'.db.payments| == |l.db.payments| + 1 && l'.db.payments[..|l.db.payments|] == l.db.payments
      && l'.events[..|l.events|] == l.events
      && (|l'.events| == |l.events| + 1 <==> gp.status == Some("approved"))
      && (|l'.events| == |l.events| || |l'.events| == |l.events| + 1)
      && KeyUsed(l'.db.payments, key)
  {
    var l' := SaveAndMap(l, gp, o, key, now).ledger;
    GatewayStatusClasses(gp.status);
    assert l'.db.payments[|l.db.payments|].idempotencyKey == key;
  }

  // ---------------------------------------------------------------------------------------------
  // createPaymentIntegration

  /** The payer e-mail matches the buyer's, ignoring case (a null e-mail never matches). */
  predicate PayerIsBuyer(db: Db, req: PaymentRequest)
    requires Valid(db) && req.orderId in db.orders
  {
    req.email.Some? && EqualsIgnoreCase(BuyerEmail(db, req.orderId), req.email.value)
  }

  predicate PayableTotal(order: Order)
  {
    order.total.Some? && order.total.value > 0.0
  }

  /** The checks made before the gateway is called, all passed. */
  predicate Admissible(l: Ledger, req: PaymentRequest, methodId: Option<string>)
    requires LedgerValid(l)
  {
    && req.idempotencyKey.Some?
    && !KeyUsed(l.db.payments, req.idempotencyKey.value)
    && req.orderId in l.db.orders
    && PayerIsBuyer(l.db, req)
    && PayableTotal(l.db.orders[req.orderId])
    && !(NeedsCardToken(methodId) && MissingToken(req.token))
  }

  /** The charge request for an order: its total, the description and external reference built
      from its id, and the card data unless the method is exactly "pix" or "bolbradesco". */
  function Charge(order: Order, req: PaymentRequest, methodId: Option<string>, key: string): (c: ChargeRequest)
    requires PayableTotal(order)
    requires NeedsCardToken(methodId) ==> !MissingToken(req.token)
    ensures c.amount == order.total.value && c.amount > 0.0
    ensures c.externalReference == LongToString(order.orderId) && c.idempotencyKey == key
    ensures c.paymentMethodId == methodId && c.payerEmail == req.email
    ensures c.card.Some? <==> NeedsCardToken(methodId)
    ensures c.card.Some? ==> c.card.value.token == req.token.value && c.card.value.installments >= 1
  {
    var card := if NeedsCardToken(methodId) then Some(CardData(req.token.value, Installments(req.installments))) else None;
    ChargeRequest(order.total.value, "Pagamento Pedido #" + LongToString(order.orderId), methodId,
                  LongToString(order.orderId), req.email, card, key)
  }

  /** `createPaymentIntegration`: the checks in their order, each failing with its own error and
      before any charge; then the charge, whose failures are translated; then the row is saved. */
  function CreatePayment(l: Ledger, req: PaymentRequest, methodId: Option<string>, now: Time, create: Creator): (a: Attempt)
    requires LedgerValid(l)
    ensures LedgerValid(a.ledger)
    ensures a.result.Err? ==> a.ledger == l
    ensures a.result == Err(MissingIdempotencyKey) <==> req.idempotencyKey.None?
    ensures a.result == Err(AlreadyProcessed) <==>
      req.idempotencyKey.Some? && KeyUsed(l.db.payments, req.idempotencyKey.value)
    ensures a.result == Err(OrderNotFound(req.orderId)) <==>
      req.idempotencyKey.Some? && !KeyUsed(l.db.payments, req.idempotencyKey.value) && req.orderId !in l.db.orders
    ensures a.result == Err(NotOrderBuyer) <==>
      req.idempotencyKey.Some? && !KeyUsed(l.db.payments, req.idempotencyKey.value) && req.orderId in l.db.orders
      && !PayerIsBuyer(l.db, req)
    ensures a.result == Err(InvalidAmount) <==>
      req.idempotencyKey.Some? && !KeyUsed(l.db.payments, req.idempotencyKey.value) && req.orderId in l.db.orders
      && PayerIsBuyer(l.db, req) && !PayableTotal(l.db.orders[req.orderId])
    ensures a.result == Err(MissingCardToken) <==>
      req.idempotencyKey.Some? && !KeyUsed(l.db.payments, req.idempotencyKey.value) && req.orderId in l.db.orders
      && PayerIsBuyer(l.db, req) && PayableTotal(l.db.orders[req.orderId]) && NeedsCardToken(methodId) && MissingToken(req.token)
    ensures a.charge.Some? <==> Admissible(l, req, methodId)
    ensures a.charge.Some? ==>
      a.charge.value == Charge(l.db.orders[req.orderId], req, methodId, req.idempotencyKey.value)
    ensures a.charge.Some? ==>
      match create(a.charge.value)
      case ApiFailure(m) => a.result == Err(GatewayRejected(m))
      case ClientFailure(m) => a.result == Err(GatewayUnreachable(m))
      case OtherFailure => a.result == Err(Unexpected)
      case Created(gp) =>
        var s := SaveAndMap(l, gp, req.orderId, req.idempotencyKey.value, now);
        a.result == s.result && a.ledger == s.ledger
    ensures a.result.Ok? ==>
      a.charge.Some? && create(a.charge.value).Created?
      && var s := SaveAndMap(l, create(a.charge.value).payment, req.orderId, req.idempotencyKey.value, now);
      s.result.Ok? && a.ledger == s.ledger && a.result == s.result
  {
    if req.idempotencyKey.None? then Attempt(Err(MissingIdempotencyKey), l, None)
    else if KeyUsed(l.db.payments, req.idempotencyKey.value) then Attempt(Err(AlreadyProcessed), l, None)
    else if req.orderId !in l.db.orders then Attempt(Err(OrderNotFound(req.orderId)), l, None)
    else if !PayerIsBuyer(l.db, req) then Attempt(Err(NotOrderBuyer), l, None)
    else if !PayableTotal(l.db.orders[req.orderId]) then Attempt(Err(InvalidAmount), l, None)
    else if NeedsCardToken(methodId) && MissingToken(req.token) then Attempt(Err(MissingCardToken), l, None)
    else
      var key := req.idempotencyKey.value;
      var charge := Charge(l.db.orders[req.orderId], req, methodId, key);
      match create(charge)
      case ApiFailure(m) => Attempt(Err(GatewayRejected(m)), l, Some(charge))
      case ClientFailure(m) => Attempt(Err(GatewayUnreachable(m)), l, Some(charge))
      case OtherFailure => Attempt(Err(Unexpected), l, Some(charge))
      case Created(gp) =>
        var s := SaveAndMap(l, gp, req.orderId, key, now);
        Attempt(s.result, s.ledger, Some(charge))
  }

  /** Idempotency: once a submission has been stored, submitting it again is refused before any
      charge reaches the gateway, and nothing changes. */
  lemma ResubmissionRefused(l: Ledger, req: PaymentRequest, methodId: Option<string>, now: Time,
                            create: Creator, methodId': Option<string>, later: Time, create': Creator)
    requires LedgerValid(l)
    requires CreatePayment(l, req, methodId, now, create).result.Ok?
    ensures var l' := CreatePayment(l, req, methodId, now, create).ledger;
      && CreatePayment(l', req, methodId', later, create') == Attempt(Err(AlreadyProcessed), l', None)
  {
    var a := CreatePayment(l, req, methodId, now, create);
    SaveAndMapPublishesOnCompletion(l, create(a.charge.value).payment, req.orderId, req.idempotencyKey.value, now);
  }

  /** A PIX submission (`processPixPayment`) never asks for a card token and sends no card data. */
  lemma PixNeedsNoCard(l: Ledger, req: PaymentRequest, now: Time, create: Creator)
    requires LedgerValid(l)
    ensures CreatePayment(l, req, Some("pix"), now, create).result != Err(MissingCardToken)
    ensures CreatePayment(l, req, Some("pix"), now, create).charge.Some? ==>
      CreatePayment(l, req, Some("pix"), now, create).charge.value.card.None?
  {
  }

  /** The external reference sent with a charge reads back as the order's id. */
  lemma ChargeReferencesOrder(order: Order, req: PaymentRequest, methodId: Option<string>, key: string)
    requires PayableTotal(order) && (NeedsCardToken(methodId) ==> !MissingToken(req.token))
    requires MinLong <= order.orderId <= MaxLong
    ensures ParseLong(Charge(order, req, methodId, key).externalReference) == Some(order.orderId)
  {
    ParseLongToString(order.orderId);
  }

  // ---------------------------------------------------------------------------------------------
  // updateLocalPaymentStatus, processWebhook, reconcilePendingPayments

  datatype Update = Update(changed: bool, ledger: Ledger)

  /** `updateLocalPaymentStatus`: the payment takes the mapped gateway status if that differs from
      its own, and a change into COMPLETED is announced on the queue. */
  function UpdateLocalStatus(l: Ledger, i: nat, raw: Option<string>): (u: Update)
    requires LedgerValid(l) && i < |l.db.payments|
    ensures LedgerValid(u.ledger)
    ensures u.changed <==> l.db.payments[i].status != MapGatewayStatus(raw)
    ensures u.ledger.db == l.db.(payments := l.db.payments[i := l.db.payments[i].(status := MapGatewayStatus(raw))])
    ensures u.ledger.events == l.events +
      (if u.changed && MapGatewayStatus(raw) == PaymentStatus.Completed
       then [CompletedEvent(l.db, l.db.payments[i].(status := PaymentStatus.Completed))] else [])
  {
    var p := l.db.payments[i];
    var status := MapGatewayStatus(raw);
    if p.status == status then
      assert l.db.payments[i := p] == l.db.payments;
      Update(false, l)
    else
      var p' := p.(status := status);
      var db' := l.db.(payments := l.db.payments[i := p']);
      assert forall o :: o in db'.orders ==> OrderValid(l.db, o);
      var events := l.events + (if status == PaymentStatus.Completed then [CompletedEvent(l.db, p')] else []);
      Update(true, Ledger(db', events))
  }

  /** Applying the same gateway status twice: the second time nothing changes and nothing is published. */
  lemma UpdateLocalStatusIdempotent(l: Ledger, i: nat, raw: Option<string>)
    requires LedgerValid(l) && i < |l.db.payments|
    ensures var l' := UpdateLocalStatus(l, i, raw).ledger;
      UpdateLocalStatus(l', i, raw) == Update(false, l')
  {
  }

  /** `processWebhook`: only the topic "payment" is handled; an id `Long.parseLong` refuses makes
      the call fail; a gateway failure is swallowed; and the local payment is looked up by the id
      exactly as received. */
  function ProcessWebhook(l: Ledger, topic: Option<string>, id: Option<string>, fetch: Fetcher): (r: Outcome<()>)
    requires LedgerValid(l)
    ensures LedgerValid(r.ledger)
    ensures r.result.Err? <==> topic == Some("payment") && (id.None? || ParseLong(id.value).None?)
    ensures r.result.Err? ==> r.result.error == MalformedPaymentId
    ensures r.ledger != l ==>
      && topic == Some("payment") && id.Some? && ParseLong(id.value).Some?
      && fetch(ParseLong(id.value).value).Found?
      && IndexOfTransaction(l.db.payments, id.value).Some?
  {
    if topic != Some("payment") then Outcome(Ok(()), l)
    else if id.None? || ParseLong(id.value).None? then Outcome(Err(MalformedPaymentId), l)
    else
      match fetch(ParseLong(id.value).value)
      case Unreachable => Outcome(Ok(()), l)
      case Found(status) =>
        match IndexOfTransaction(l.db.payments, id.value)
        case None => Outcome(Ok(()), l)
        case Some(i) => Outcome(Ok(()), UpdateLocalStatus(l, i, status).ledger)
  }

  /** A notification for a stored payment gives it the gateway's status, mapped. */
  lemma WebhookUpdatesStoredPayment(l: Ledger, id: string, fetch: Fetcher, i: nat)
    requires LedgerValid(l) && i < |l.db.payments| && l.db.payments[i].transactionId == id
    requires ParseLong(id).Some? && fetch(ParseLong(id).value).Found?
    ensures var l' := ProcessWebhook(l, Some("payment"), Some(id), fetch).ledger;
      && l'.db.payments[i].status == MapGatewayStatus(fetch(ParseLong(id).value).status)
      && (forall j :: 0 <= j < |l.db.payments| && j != i ==> l'.db.payments[j] == l.db.payments[j])
  {
    IndexOfTransactionUnique(l.db.payments, id, i);
  }

  /** The lookup uses the received text, not the parsed number: a notification for "+7" reaches
      the gateway payment 7 but does not update the payment stored under "7". */
  lemma WebhookIdMustMatchText(l: Ledger, fetch: Fetcher)
    requires LedgerValid(l) && |l.db.payments| == 1 && l.db.payments[0].transactionId == "7"
    ensures ParseLong("+7") == ParseLong("7") == Some(7)
    ensures ProcessWebhook(l, Some("payment"), Some("+7"), fetch) == Outcome(Ok(()), l)
  {
    assert DigitsValue("7") == 7 by {
      assert "7"[..0] == [];
    }
    assert "+7"[1..] == "7";
    assert !TransactionStored(l.db.payments, "+7") by {
      assert l.db.payments[0].transactionId != "+7";
    }
  }

  /** The payments `findByStatusAndPaymentDateBefore(PENDING, cutoff)` returns, as positions in
      table order. */
  function DuePayments(payments: seq<Payment>, cutoff: Time): (due: seq<nat>)
    ensures forall k :: 0 <= k < |due| ==> due[k] < |payments|
    ensures forall i :: 0 <= i < |payments| ==>
      (i in due <==> payments[i].status == PaymentStatus.Pending && payments[i].paymentDate < cutoff)
    ensures forall k, m :: 0 <= k < m < |due| ==> due[k] < due[m]
  {
    if payments == [] then []
    else
      var n := |payments| - 1;
      var front := DuePayments(payments[..n], cutoff);
      assert forall i :: 0 <= i < n ==> payments[..n][i] == payments[i];
      if payments[n].status == PaymentStatus.Pending && payments[n].paymentDate < cutoff then front + [n] else front
  }

  /** One step of the reconciliation: a payment whose id `Long.parseLong` refuses, or that the
      gateway cannot return, is skipped (its exception is caught); otherwise its status is updated. */
  function ReconcileOne(l: Ledger, i: nat, fetch: Fetcher): (l': Ledger)
    requires LedgerValid(l) && i < |l.db.payments|
    ensures LedgerValid(l')
  {
    var id := ParseLong(l.db.payments[i].transactionId);
    if id.None? then l
    else
      match fetch(id.value)
      case Unreachable => l
      case Found(status) => UpdateLocalStatus(l, i, status).ledger
  }

  /** The gateway's answer for a stored payment, when there is one to apply. */
  predicate Resolvable(p: Payment, fetch: Fetcher)
  {
    ParseLong(p.transactionId).Some? && fetch(ParseLong(p.transactionId).value).Found?
  }

  function ResolvedStatus(p: Payment, fetch: Fetcher): PaymentStatus
    requires Resolvable(p, fetch)
  {
    MapGatewayStatus(fetch(ParseLong(p.transactionId).value).status)
  }

  /** The loop of `reconcilePendingPayments` over the given positions, in order. */
  function ReconcileAll(l: Ledger, due: seq<nat>, fetch: Fetcher): (l': Ledger)
    requires LedgerValid(l)
    requires forall k :: 0 <= k < |due| ==> due[k] < |l.db.payments|
    ensures LedgerValid(l')
    ensures |l'.db.payments| == |l.db.payments|
  {
    if due == [] then l
    else
      var n := |due| - 1;
      var before := ReconcileAll(l, due[..n], fetch);
      ReconcileOne(before, due[n], fetch)
  }

  /** One more due payment: the pass over the longer prefix is one more reconciliation step. */
  lemma ReconcileAllStep(l: Ledger, done: seq<nat>, i: nat, fetch: Fetcher)
    requires LedgerValid(l) && i < |l.db.payments|
    requires forall m :: 0 <= m < |done| ==> done[m] < |l.db.payments|
    ensures ReconcileAll(l, done + [i], fetch) == ReconcileOne(ReconcileAll(l, done, fetch), i, fetch)
  {
    assert (done + [i])[..|done|] == done;
  }

  /** One reconciliation step changes at most the status of its own payment and only appends
      completion events. */
  lemma ReconcileOneEffect(l: Ledger, i: nat, fetch: Fetcher)
    requires LedgerValid(l) && i < |l.db.payments|
    ensures var l' := ReconcileOne(l, i, fetch);
      && l'.db == l.db.(payments := l'.db.payments)
      && l'.db.payments == l.db.payments[i := if Resolvable(l.db.payments[i], fetch)
                                              then l.db.payments[i].(status := ResolvedStatus(l.db.payments[i], fetch))
                                              else l.db.payments[i]]
      && |l.events| <= |l'.events| && l'.events[..|l.events|] == l.events
      && (forall k :: |l.events| <= k < |l'.events| ==> l'.events[k].status == "COMPLETED")
  {
    var p := l.db.payments[i];
    if !Resolvable(p, fetch) {
      assert l.db.payments[i := p] == l.db.payments;
    }
  }

  /** `reconcilePendingPayments`: every PENDING payment dated before five minutes ago is checked
      against the gateway. */
  function Reconcile(l: Ledger, now: Time, fetch: Fetcher): Ledger
    requires LedgerValid(l)
  {
    ReconcileAll(l, DuePayments(l.db.payments, now - 300), fetch)
  }

  /** What the reconciliation loop leaves: every listed payment the gateway answered for carries
      the mapped status, each independently of failures on the others; every other payment, and
      every other table, is untouched; events are only added, and each announces a completion. */
  lemma {:induction false} ReconcileAllEffect(l: Ledger, due: seq<nat>, fetch: Fetcher)
    requires LedgerValid(l)
    requires forall k :: 0 <= k < |due| ==> due[k] < |l.db.payments|
    requires forall k, m :: 0 <= k < m < |due| ==> due[k] != due[m]
    ensures var l' := ReconcileAll(l, due, fetch);
      && l'.db == l.db.(payments := l'.db.payments)
      && (forall i :: 0 <= i < |l.db.payments| ==>
            l'.db.payments[i] == if i in due && Resolvable(l.db.payments[i], fetch)
                                 then l.db.payments[i].(status := ResolvedStatus(l.db.payments[i], fetch))
                                 else l.db.payments[i])
      && |l.events| <= |l'.events| && l'.events[..|l.events|] == l.events
      && (forall k :: |l.events| <= k < |l'.events| ==> l'.events[k].status == "COMPLETED")
  {
    if due != [] {
      var n := |due| - 1;
      var before := ReconcileAll(l, due[..n], fetch);
      ReconcileAllEffect(l, due[..n], fetch);
      var i := due[n];
      assert i !in due[..n];
      assert before.db.payments[i] == l.db.payments[i];
      var l' := ReconcileOne(before, i, fetch);
      ReconcileOneEffect(before, i, fetch);
      assert l' == ReconcileAll(l, due, fetch);
      forall j | 0 <= j < |l.db.payments|
        ensures l'.db.payments[j] == if j in due && Resolvable(l.db.payments[j], fetch)
                                     then l.db.payments[j].(status := ResolvedStatus(l.db.payments[j], fetch))
                                     else l.db.payments[j]
      {
        assert j in due <==> j in due[..n] || j == i;
      }
      assert l'.events[..|before.events|] == before.events;
      assert before.events[..|l.events|] == l.events;
    }
  }

  /** The reconciliation touches only the statuses of due payments the gateway answered for. */
  lemma ReconcileEffect(l: Ledger, now: Time, fetch: Fetcher, i: nat)
    requires LedgerValid(l) && i < |l.db.payments|
    ensures var l' := Reconcile(l, now, fetch);
      && l'.db == l.db.(payments := l'.db.payments)
      && |l'.db.payments| == |l.db.payments|
      && var p := l.db.payments[i];
      && (p.status == PaymentStatus.Pending && p.paymentDate < now - 300 && Resolvable(p, fetch) ==>
            l'.db.payments[i] == p.(status := ResolvedStatus(p, fetch)))
      && (!(p.status == PaymentStatus.Pending && p.paymentDate < now - 300 && Resolvable(p, fetch)) ==>
            l'.db.payments[i] == p)
  {
    ReconcileAllEffect(l, DuePayments(l.db.payments, now - 300), fetch);
  }
}

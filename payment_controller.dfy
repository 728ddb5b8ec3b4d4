/** `PaymentController.handleWebhook` and `checkPaymentStatus`: a gateway notification names a
    payment; the controller fetches that payment over HTTP and approves the order it refers to
    when the gateway reports it approved. The HTTP fetch is an oracle; the notification's
    signature is never checked on this route. */
module PaymentController {
  import opened Common
  import opened Domain
  import opened StockLedger
  import opened OrderLifecycle
  import opened OrderService
  import opened Repository

  /** A value of a JSON object as Jackson hands it over: a string, a nested object (with its
      `toString` text), or anything else (a number, a boolean, a list) with its `toString` text.
      A JSON null is an absent key. */
  datatype JValue = JString(s: string) | JMap(fields: map<string, JValue>, text: string) | JOther(text: string)

  type Json = map<string, JValue>

  /** `String.valueOf`. */
  function Render(v: JValue): string
  {
    match v
    case JString(s) => s
    case JMap(_, text) => text
    case JOther(text) => text
  }

  /** `(String) m.get(key)` does not throw: the key is absent or holds a string. */
  predicate Castable(m: Json, key: string)
  {
    key !in m || m[key].JString?
  }

  /** The result of that cast. */
  function TextOf(m: Json, key: string): (r: Option<string>)
    requires Castable(m, key)
    ensures r.Some? <==> key in m
    ensures r.Some? ==> m[key] == JString(r.value)
  {
    if key in m then Some(m[key].s) else None
  }

  /** `"payment".equals(m.get(key))`. */
  predicate SaysPayment(m: Json, key: string)
  {
    key in m && m[key] == JString("payment")
  }

  /** The payment id of a notification: `data.id` when `data` is an object (a non-string id
      throws, and the exception is swallowed), else the text of a top-level `id`. */
  function PaymentIdOf(payload: Json): (r: Option<string>)
    ensures "data" in payload && payload["data"].JMap? ==>
      (r.Some? <==> "id" in payload["data"].fields && payload["data"].fields["id"].JString?)
      && (r.Some? ==> payload["data"].fields["id"] == JString(r.value))
    ensures !("data" in payload && payload["data"].JMap?) ==>
      (r.Some? <==> "id" in payload) && (r.Some? ==> r.value == Render(payload["id"]))
  {
    if "data" in payload && payload["data"].JMap? then
      var data := payload["data"].fields;
      if Castable(data, "id") then TextOf(data, "id") else None
    else if "id" in payload then Some(Render(payload["id"]))
    else None
  }

  /** The order `checkPaymentStatus` approves for a fetched payment, if any: the body's `status`
      and `external_reference` are cast to strings (a failed cast is swallowed), the status must
      be exactly "approved", and the reference must parse as a `Long`. */
  function ApprovalTarget(body: Option<Json>): Option<OrderId>
  {
    if body.None? then None
    else
      var b := body.value;
      if !Castable(b, "status") || !Castable(b, "external_reference") then None
      else if TextOf(b, "status") == Some("approved") && TextOf(b, "external_reference").Some? then
        ParseLong(TextOf(b, "external_reference").value)
      else None
  }

  /** An approval happens exactly for a body whose status is the string "approved" and whose
      external reference is a string that parses to the order's id. */
  lemma ApprovalTargetMeans(body: Option<Json>, o: OrderId)
    ensures ApprovalTarget(body) == Some(o) <==>
      && body.Some?
      && "status" in body.value && body.value["status"] == JString("approved")
      && "external_reference" in body.value && body.value["external_reference"].JString?
      && ParseLong(body.value["external_reference"].s) == Some(o)
  {
  }

  /** The reference a charge carries reads back as its order: the gateway's report that the
      charge was approved approves that order. */
  lemma ChargeReportApprovesOrder(o: OrderId)
    requires MinLong <= o <= MaxLong
    ensures ApprovalTarget(Some(map["status" := JString("approved"), "external_reference" := JString(LongToString(o))])) == Some(o)
  {
    ParseLongToString(o);
  }

  /** The HTTP answer. */
  datatype Reply = Ok200 | ServerError500

  datatype Handling = Handling(reply: Reply, db: Db)

  /** The HTTP fetch of a payment by id: its body, or nothing when the call throws or the body is null. */
  type PaymentLookup = string -> Option<Json>

  /** `handleWebhook`: a `type` that is not a string fails the request (the cast is outside the
      handler's try); a notification about a payment has its payment fetched and, when approved,
      its order approved; every other failure is swallowed and the answer is 200. */
  function HandleWebhook(db: Db, payload: Json, lookup: PaymentLookup): (h: Handling)
    requires Valid(db)
    ensures Valid(h.db)
    ensures h.reply == ServerError500 <==> !Castable(payload, "type")
    ensures h.reply == ServerError500 ==> h.db == db
  {
    if !Castable(payload, "type") then Handling(ServerError500, db)
    else if !(SaysPayment(payload, "type") || SaysPayment(payload, "topic")) then Handling(Ok200, db)
    else
      match PaymentIdOf(payload)
      case None => Handling(Ok200, db)
      case Some(id) =>
        match ApprovalTarget(lookup(id))
        case None => Handling(Ok200, db)
        case Some(o) => Handling(Ok200, Approve(db, o).db)
  }

  /** A notification changes the database only by approving the order of a payment the gateway
      reports approved; a notification that is not about a payment changes nothing. Conversely,
      a notification about a payment, by `type` or by `topic`, whose id (under `data` or at the
      top level) fetches an approved payment approves that payment's order. */
  lemma WebhookOnlyApproves(db: Db, payload: Json, lookup: PaymentLookup)
    requires Valid(db)
    ensures (&& Castable(payload, "type")
             && (SaysPayment(payload, "type") || SaysPayment(payload, "topic"))
             && PaymentIdOf(payload).Some?
             && ApprovalTarget(lookup(PaymentIdOf(payload).value)).Some?) ==>
      HandleWebhook(db, payload, lookup) == Handling(Ok200, Approve(db, ApprovalTarget(lookup(PaymentIdOf(payload).value)).value).db)
    ensures !(SaysPayment(payload, "type") || SaysPayment(payload, "topic")) ==> HandleWebhook(db, payload, lookup).db == db
    ensures var h := HandleWebhook(db, payload, lookup);
      h.db == db
      || (&& PaymentIdOf(payload).Some?
          && ApprovalTarget(lookup(PaymentIdOf(payload).value)).Some?
          && h.db == Approve(db, ApprovalTarget(lookup(PaymentIdOf(payload).value)).value).db)
  {
  }

  /** Delivering the same notification twice takes stock once: the second approval finds the
      order PAID. */
  lemma RedeliveryTakesStockOnce(db: Db, payload: Json, lookup: PaymentLookup)
    requires Valid(db)
    ensures var once := HandleWebhook(db, payload, lookup);
      HandleWebhook(once.db, payload, lookup) == once
  {
    var once := HandleWebhook(db, payload, lookup);
    if Castable(payload, "type") && (SaysPayment(payload, "type") || SaysPayment(payload, "topic"))
       && PaymentIdOf(payload).Some? && ApprovalTarget(lookup(PaymentIdOf(payload).value)).Some? {
      ApproveIdempotent(db, ApprovalTarget(lookup(PaymentIdOf(payload).value)).value);
    }
  }

  /** Anyone can post a notification: one that only names the id of a payment approved for order
      `o` approves `o`, whatever the request's headers. */
  lemma UnsignedNotificationApproves(db: Db, id: string, lookup: PaymentLookup, o: OrderId)
    requires Valid(db)
    requires lookup(id) == Some(map["status" := JString("approved"), "external_reference" := JString(LongToString(o))])
    requires MinLong <= o <= MaxLong
    ensures HandleWebhook(db, map["type" := JString("payment"), "data" := JMap(map["id" := JString(id)], "")], lookup)
      == Handling(Ok200, Approve(db, o).db)
  {
    ChargeReportApprovesOrder(o);
    var payload := map["type" := JString("payment"), "data" := JMap(map["id" := JString(id)], "")];
    assert PaymentIdOf(payload) == Some(id);
  }

  /** `checkPaymentStatus` over the store: fetch, decide, approve; a failing approval is rolled
      back by its own transaction and its exception swallowed. */
  method CheckPaymentStatus(db: Store, id: string, lookup: PaymentLookup)
    requires db.Valid()
    modifies db
    ensures ApprovalTarget(lookup(id)).None? ==> db.Snapshot() == old(db.Snapshot())
    ensures ApprovalTarget(lookup(id)).Some? ==> db.Snapshot() == Approve(old(db.Snapshot()), ApprovalTarget(lookup(id)).value).db
  {
    var body := lookup(id);
    var target := ApprovalTarget(body);
    if target.Some? {
      var _ := ApproveOrder(db, target.value);
    }
  }

  /** `handleWebhook` over the store. */
  method HandleWebhookRequest(db: Store, payload: Json, lookup: PaymentLookup) returns (reply: Reply)
    requires db.Valid()
    modifies db
    ensures Handling(reply, db.Snapshot()) == HandleWebhook(old(db.Snapshot()), payload, lookup)
  {
    if !Castable(payload, "type") {
      return ServerError500;
    }
    if SaysPayment(payload, "type") || SaysPayment(payload, "topic") {
      var id := PaymentIdOf(payload);
      if id.Some? {
        CheckPaymentStatus(db, id.value, lookup);
      }
    }
    return Ok200;
  }
}

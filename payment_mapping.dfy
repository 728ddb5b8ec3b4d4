/** The translations `PaymentService` applies to what the gateway reports: its status strings
    and its payment-method ids, and the card-token rule that looks at the raw method id. */
module PaymentMapping {
  import opened Common
  import opened Domain

  /** `mapMercadoPagoStatus`: a null status is PENDING; otherwise an exact, case-sensitive switch. */
  function MapGatewayStatus(status: Option<string>): PaymentStatus
  {
    if status.None? then PaymentStatus.Pending
    else
      match status.value
      case "approved" => PaymentStatus.Completed
      case "pending" => PaymentStatus.Pending
      case "in_process" => PaymentStatus.Pending
      case "authorized" => PaymentStatus.Pending
      case "refunded" => PaymentStatus.Refunded
      case "cancelled" => PaymentStatus.Refunded
      case "rejected" => PaymentStatus.Refunded
      case _ => PaymentStatus.Failed
  }

  /** The gateway statuses that map to each local status. */
  predicate PendingStatus(s: string)
  {
    s == "pending" || s == "in_process" || s == "authorized"
  }

  predicate RefundedStatus(s: string)
  {
    s == "refunded" || s == "cancelled" || s == "rejected"
  }

  /** Every gateway status lands in exactly one local status: COMPLETED only for "approved",
      PENDING for null and the three in-flight statuses, REFUNDED for the three closing ones,
      and FAILED for everything else, including a differently cased "Approved". */
  lemma GatewayStatusClasses(status: Option<string>)
    ensures MapGatewayStatus(status) == PaymentStatus.Completed <==> status == Some("approved")
    ensures MapGatewayStatus(status) == PaymentStatus.Pending <==> status.None? || PendingStatus(status.value)
    ensures MapGatewayStatus(status) == PaymentStatus.Refunded <==> status.Some? && RefundedStatus(status.value)
    ensures MapGatewayStatus(status) == PaymentStatus.Failed <==>
      status.Some? && status.value != "approved" && !PendingStatus(status.value) && !RefundedStatus(status.value)
    ensures MapGatewayStatus(Some("Approved")) == PaymentStatus.Failed
  {
  }

  /** `mapPaymentMethod`: a null id is a credit card; otherwise the id is lower-cased and switched on. */
  function MapPaymentMethod(methodId: Option<string>): PaymentMethod
  {
    if methodId.None? then PaymentMethod.CreditCard
    else
      match ToLower(methodId.value)
      case "pix" => PaymentMethod.Pix
      case "bolbradesco" => PaymentMethod.BankTransfer
      case "debit_card" => PaymentMethod.DebitCard
      case _ => PaymentMethod.CreditCard
  }

  /** The method mapping ignores letter case, defaults to CREDIT_CARD, and never yields CASH. */
  lemma {:induction false} PaymentMethodIgnoresCase(a: string, b: string)
    requires EqualsIgnoreCase(a, b)
    ensures MapPaymentMethod(Some(a)) == MapPaymentMethod(Some(b))
    ensures MapPaymentMethod(Some(a)) != PaymentMethod.Cash
    ensures MapPaymentMethod(None) == PaymentMethod.CreditCard
  {
  }

  /** The lower-cased ids that select each method; every other id is a credit card. */
  lemma PaymentMethodClasses(methodId: string)
    ensures MapPaymentMethod(Some(methodId)) == PaymentMethod.Pix <==> ToLower(methodId) == "pix"
    ensures MapPaymentMethod(Some(methodId)) == PaymentMethod.BankTransfer <==> ToLower(methodId) == "bolbradesco"
    ensures MapPaymentMethod(Some(methodId)) == PaymentMethod.DebitCard <==> ToLower(methodId) == "debit_card"
    ensures MapPaymentMethod(Some(methodId)) == PaymentMethod.CreditCard <==>
      ToLower(methodId) != "pix" && ToLower(methodId) != "bolbradesco" && ToLower(methodId) != "debit_card"
  {
  }

  /** The submission asks for a card token unless the method id is exactly "pix" or "bolbradesco";
      this comparison is case-sensitive, unlike `mapPaymentMethod`. */
  predicate NeedsCardToken(methodId: Option<string>)
  {
    methodId != Some("pix") && methodId != Some("bolbradesco")
  }

  /** "PIX" is recorded as a PIX payment, yet is treated as a card payment that needs a token. */
  lemma CardRuleIsCaseSensitive()
    ensures NeedsCardToken(Some("PIX")) && MapPaymentMethod(Some("PIX")) == PaymentMethod.Pix
    ensures !NeedsCardToken(Some("pix")) && MapPaymentMethod(Some("pix")) == PaymentMethod.Pix
  {
    assert ToLower("PIX") == "pix";
  }

  /** `Character.isWhitespace`: the Unicode space separators except the no-break ones, the line
      and paragraph separators, and the ASCII controls tab, line feed, vertical tab, form feed,
      carriage return and the four information separators. */
  predicate IsJavaWhitespace(c: char)
  {
    || ('\t' <= c <= '\r')
    || ('\U{1C}' <= c <= '\U{1F}')
    || c == ' ' || c == '\U{1680}'
    || ('\U{2000}' <= c <= '\U{2006}') || ('\U{2008}' <= c <= '\U{200A}')
    || c == '\U{2028}' || c == '\U{2029}' || c == '\U{205F}' || c == '\U{3000}'
  }

  /** `String.isBlank`: empty or whitespace only. */
  predicate IsBlank(s: string)
  {
    forall i :: 0 <= i < |s| ==> IsJavaWhitespace(s[i])
  }

  /** A token is missing when it is null or blank; a no-break space does not make a token blank. */
  predicate MissingToken(token: Option<string>)
  {
    token.None? || IsBlank(token.value)
  }

  lemma MissingTokenExamples()
    ensures MissingToken(None) && MissingToken(Some("")) && MissingToken(Some(" \t\n"))
    ensures !MissingToken(Some("\U{A0}")) && !MissingToken(Some(" tok "))
  {
    assert !IsJavaWhitespace(" tok "[1]);
    assert !IsJavaWhitespace("\U{A0}"[0]);
  }

  /** The installments sent for a card payment: the requested count when it is positive, else 1. */
  function Installments(requested: Option<int>): (n: int)
    ensures n >= 1
    ensures requested.Some? && requested.value > 0 ==> n == requested.value
    ensures requested.None? || requested.value <= 0 ==> n == 1
  {
    if requested.Some? && requested.value > 0 then requested.value else 1
  }
}

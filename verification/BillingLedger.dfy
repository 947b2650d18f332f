/**
 The billing tables and the database transactions over them (billing.service.ts, invoice-series.service.ts,
 proof.service.ts, subscription.service.ts). A step is one atomic transaction: it returns the tables as the
 transaction leaves them and the reply to the caller. A rejected step leaves the tables as they were, except a
 checkout that the provider refuses, which is recorded.
 */
module BillingLedger {
  import opened Wrappers
  import opened Text
  import opened Calendar
  import opened IsoTime
  import opened Agt
  import opened BillingRules
  import opened PaymentProtocol
  import Vat

  type OrganizationId = string
  type PlanId = string

  datatype Plan = Plan(interval: BillingInterval, priceCents: int, currency: string, active: bool)

  datatype Organization = Organization(taxId: Option<string>)

  datatype Subscription = Subscription(planId: PlanId, period: Period)

  datatype SeriesKey = SeriesKey(organizationId: OrganizationId, documentType: DocumentType, year: int)

  /** `nextNumber` is the last number handed out. */
  datatype Series = Series(code: string, nextNumber: nat)

  /** The fiscal columns, which are null until the payment succeeds. */
  datatype Invoice = Invoice(
    series: SeriesKey,
    seriesCode: string,
    sequence: nat,
    invoiceNumber: string,
    subtotalCents: int,
    vatCents: int,
    vatRateBps: int,
    issuerTaxId: Option<string>,
    hash: string,
    qr: string,
    issuedAt: int,
    certified: bool)

  datatype Transaction = Transaction(
    organizationId: OrganizationId,
    planId: PlanId,
    paymentMethod: PaymentMethod,
    status: TransactionStatus,
    amountCents: int,
    currency: string,
    customerTaxId: Option<string>,
    providerEventId: Option<EventId>,
    providerReference: Option<string>,
    paidAt: Option<int>,
    proofSubmittedAt: Option<int>,
    failureReason: Option<string>,
    invoice: Option<Invoice>)

  /** A history record, not a column: one subscription period bought through the webhook. */
  datatype Extension = Extension(
    organizationId: OrganizationId,
    reference: Reference,
    at: int,
    existing: Option<Period>,
    interval: BillingInterval,
    period: Period)

  datatype Ledger = Ledger(
    plans: map<PlanId, Plan>,
    organizations: map<OrganizationId, Organization>,
    transactions: map<Reference, Transaction>,
    subscriptions: map<OrganizationId, Subscription>,
    series: map<SeriesKey, Series>,
    extensions: seq<Extension>)

  const EMPTY: Ledger := Ledger(map[], map[], map[], map[], map[], [])

  datatype Error =
    | NotFound
    | BadRequest
    | ProviderError(message: string)
    | ProofRefused(reason: ProofRefusal)
    | InvalidUpload
    | UniqueViolation
    | InvalidAmount

  datatype Reply =
    | Rejected(error: Error)
    | CheckoutStarted
    | ProofSubmitted
    | EventApplied
    | EventDuplicate
    | PlanAssigned
    | TrialAttached
    | CatalogueChanged

  datatype StepResult = StepResult(ledger: Ledger, reply: Reply)

  /** IVA_RATE_BPS, as the environment schema bounds it. */
  type RateBps = r: int | Vat.ValidRate(r)

  datatype Config = Config(ivaRateBps: RateBps, platformTaxId: Option<string>)

  /** What signInvoice returns; RSA or HMAC over the canonical string, not modelled further. */
  datatype Signature = Signature(hash: string, certified: bool)

  type Signer = string -> Signature

  /* ---------------------------------------------------------------------- */
  /* Checkout, proof and entitlement                                        */
  /* ---------------------------------------------------------------------- */

  function NonEmpty(s: string): Option<string> {
    if s == "" then None else Some(s)
  }

  /** `session` is the provider's answer: its reference, or the message of its error. */
  function StartCheckout(l: Ledger, reference: Reference, organizationId: OrganizationId, planId: PlanId,
                         paymentMethod: PaymentMethod, taxId: string,
                         session: Result<Option<string>, string>): StepResult
  {
    if organizationId !in l.organizations || planId !in l.plans || !l.plans[planId].active then
      StepResult(l, Rejected(NotFound))
    else if l.plans[planId].priceCents <= 0 then StepResult(l, Rejected(BadRequest))
    else if reference in l.transactions then StepResult(l, Rejected(UniqueViolation))
    else
      var plan := l.plans[planId];
      var created := Transaction(organizationId, planId, paymentMethod, Pending, plan.priceCents, plan.currency,
                                 NonEmpty(taxId), None, None, None, None, None, None);
      match session
      case Success(providerReference) =>
        StepResult(l.(transactions := l.transactions[reference := created.(providerReference := providerReference)]),
                   CheckoutStarted)
      case Failure(message) =>
        var failed := created.(status := Failed, failureReason := Some(Take(message, 300)));
        StepResult(l.(transactions := l.transactions[reference := failed]), Rejected(ProviderError(message)))
  }

  function ProofRefusalOf(status: TransactionStatus, paymentMethod: PaymentMethod): Option<ProofRefusal> {
    if status.Succeeded? then Some(AlreadyConfirmed)
    else if status.Failed? || status.Refunded? then Some(NoLongerAccepted)
    else if paymentMethod.Card? then Some(CardPayment)
    else None
  }

  function SubmitProof(l: Ledger, organizationId: OrganizationId, reference: Reference, uploadOk: bool,
                       now: int): StepResult
  {
    if reference !in l.transactions || l.transactions[reference].organizationId != organizationId then
      StepResult(l, Rejected(NotFound))
    else
      var t := l.transactions[reference];
      if ProofRefusalOf(t.status, t.paymentMethod).Some? then
        StepResult(l, Rejected(ProofRefused(ProofRefusalOf(t.status, t.paymentMethod).value)))
      else if !uploadOk then StepResult(l, Rejected(InvalidUpload))
      else
        var reviewed := t.(proofSubmittedAt := Some(now),
                           status := if t.status.Pending? then UnderReview else t.status);
        StepResult(l.(transactions := l.transactions[reference := reviewed]), ProofSubmitted)
  }

  function AssignPlan(l: Ledger, organizationId: OrganizationId, planId: PlanId, now: int): StepResult {
    if organizationId !in l.organizations || planId !in l.plans || !l.plans[planId].active then
      StepResult(l, Rejected(NotFound))
    else
      var period := Period(Active, now, AddInterval(now, l.plans[planId].interval), false);
      StepResult(l.(subscriptions := l.subscriptions[organizationId := Subscription(planId, period)]), PlanAssigned)
  }

  /** An organization that already has a subscription keeps it as it is. */
  function AttachTrial(l: Ledger, organizationId: OrganizationId, trialPlan: Option<PlanId>, days: nat,
                       now: int): StepResult {
    if trialPlan.None? then StepResult(l, Rejected(NotFound))
    else if organizationId in l.subscriptions then StepResult(l, TrialAttached)
    else
      var trial := Subscription(trialPlan.value, Trial(now, days));
      StepResult(l.(subscriptions := l.subscriptions[organizationId := trial]), TrialAttached)
  }

  /* ---------------------------------------------------------------------- */
  /* Webhook                                                                */
  /* ---------------------------------------------------------------------- */

  /** The unique index on provider_event_id. */
  predicate EventTaken(transactions: map<Reference, Transaction>, eventId: EventId) {
    exists r :: r in transactions && transactions[r].providerEventId == Some(eventId)
  }

  /** Transaction `r` is document number `n` of series `key`. */
  predicate Holds(transactions: map<Reference, Transaction>, r: Reference, key: SeriesKey, n: int) {
    && r in transactions
    && transactions[r].invoice.Some?
    && transactions[r].invoice.value.series == key
    && transactions[r].invoice.value.sequence == n
  }

  ghost predicate HasDocument(transactions: map<Reference, Transaction>, key: SeriesKey, n: int) {
    exists r :: Holds(transactions, r, key, n)
  }

  datatype Allocation = Allocation(series: map<SeriesKey, Series>, key: SeriesKey, seriesCode: string, sequence: nat)

  /** The first document of a series creates it; every later one increments its counter. */
  function AllocateInvoiceNumber(series: map<SeriesKey, Series>, organizationId: OrganizationId,
                                 documentType: DocumentType, date: int): Allocation
  {
    var year := YearOf(DayOf(date));
    var key := SeriesKey(organizationId, documentType, year);
    var row := if key in series then series[key].(nextNumber := series[key].nextNumber + 1)
               else Series(FormatSeriesCode(documentType, year), 1);
    Allocation(series[key := row], key, row.code, row.nextNumber)
  }

  /** The stored hash of the document before `sequence`; a series without one gives the empty string. */
  ghost function PreviousInvoiceHash(transactions: map<Reference, Transaction>, key: SeriesKey, sequence: int): string {
    var n := sequence - 1;
    if n >= 1 && HasDocument(transactions, key, n) then
      var p :| Holds(transactions, p, key, n);
      transactions[p].invoice.value.hash
    else ""
  }

  function CurrentPeriod(subscriptions: map<OrganizationId, Subscription>,
                         organizationId: OrganizationId): Option<Period> {
    if organizationId in subscriptions then Some(subscriptions[organizationId].period) else None
  }

  function InvoiceCustomer(l: Ledger, t: Transaction): string {
    match t.customerTaxId
    case Some(taxId) => taxId
    case None =>
      if t.organizationId in l.organizations then l.organizations[t.organizationId].taxId.GetOr("") else ""
  }

  /** The signed invoice of a claimed payment. */
  function IssueInvoice(t: Transaction, a: Allocation, issuedAt: int, customerTaxId: string, config: Config,
                        split: Vat.VatBreakdown, previousHash: string, sign: Signer): Invoice
    requires a.sequence >= 1
  {
    var issuer := config.platformTaxId.GetOr("");
    var input := SignatureInput(issuer, customerTaxId, FR, a.seriesCode, a.sequence, IsoString(issuedAt),
                                split.subtotalCents, split.vatCents, split.totalCents, t.currency, previousHash);
    var signature := sign(BuildInvoiceCanonical(input));
    var number := BuildInvoiceNumber(a.seriesCode, a.sequence).value;
    Invoice(a.key, a.seriesCode, a.sequence, number, split.subtotalCents, split.vatCents, config.ivaRateBps,
            NonEmpty(issuer), signature.hash, InvoiceQrPayload(input, number, signature.hash), issuedAt,
            signature.certified)
  }

  /** A claimed payment: extend the subscription, take the next number, sign, and store. */
  ghost function Settle(l: Ledger, e: PaymentEvent, now: int, config: Config, sign: Signer): StepResult
    requires e.reference in l.transactions
  {
    var t := l.transactions[e.reference];
    if t.planId !in l.plans then StepResult(l, Rejected(NotFound))
    else
      var interval := l.plans[t.planId].interval;
      var existing := CurrentPeriod(l.subscriptions, t.organizationId);
      var period := Extend(existing, now, interval);
      var a := AllocateInvoiceNumber(l.series, t.organizationId, FR, e.paidAt);
      var split := Vat.Breakdown(t.amountCents, config.ivaRateBps);
      if split.Failure? then StepResult(l, Rejected(InvalidAmount))
      else
        var customer := InvoiceCustomer(l, t);
        var previous := PreviousHashOf(PreviousInvoiceHash(l.transactions, a.key, a.sequence));
        var invoice := IssueInvoice(t, a, e.paidAt, customer, config, split.value, previous, sign);
        if HasDocument(l.transactions, a.key, a.sequence) then StepResult(l, Rejected(UniqueViolation))
        else
          var paid := t.(status := Succeeded, providerEventId := Some(e.eventId),
                         providerReference := e.providerReference, paidAt := Some(e.paidAt),
                         customerTaxId := NonEmpty(customer), invoice := Some(invoice));
          StepResult(
            l.(transactions := l.transactions[e.reference := paid],
               subscriptions := l.subscriptions[t.organizationId := Subscription(t.planId, period)],
               series := a.series,
               extensions := l.extensions + [Extension(t.organizationId, e.reference, now, existing, interval,
                                                       period)]),
            EventApplied)
  }

  ghost function ApplyPaymentEvent(l: Ledger, e: PaymentEvent, now: int, config: Config, sign: Signer): StepResult {
    if e.reference !in l.transactions then StepResult(l, Rejected(NotFound))
    else
      var t := l.transactions[e.reference];
      if t.providerEventId == Some(e.eventId) || t.status.Succeeded? then StepResult(l, EventDuplicate)
      else if !e.succeeded then
        if EventTaken(l.transactions, e.eventId) then StepResult(l, Rejected(UniqueViolation))
        else
          var failed := t.(status := Failed, providerEventId := Some(e.eventId),
                           providerReference := e.providerReference,
                           failureReason := Some("reported_failed_by_provider"));
          StepResult(l.(transactions := l.transactions[e.reference := failed]), EventApplied)
      else if !t.status.Open() then StepResult(l, EventDuplicate)
      else if EventTaken(l.transactions, e.eventId) then StepResult(l, Rejected(UniqueViolation))
      else Settle(l, e, now, config, sign)
  }

  /* ---------------------------------------------------------------------- */
  /* Runs                                                                   */
  /* ---------------------------------------------------------------------- */

  datatype Step =
    | Checkout(reference: Reference, organizationId: OrganizationId, planId: PlanId, paymentMethod: PaymentMethod,
               taxId: string, session: Result<Option<string>, string>)
    | Proof(organizationId: OrganizationId, reference: Reference, uploadOk: bool, now: int)
    | Webhook(event: PaymentEvent, now: int, config: Config)
    | Assign(organizationId: OrganizationId, planId: PlanId, now: int)
    | AttachTrialPlan(organizationId: OrganizationId, trialPlan: Option<PlanId>, days: nat, now: int)
    /** Any administration of the plan catalogue and of the organizations' own data. */
    | Catalogue(plans: map<PlanId, Plan>, organizations: map<OrganizationId, Organization>)

  ghost function Do(l: Ledger, step: Step, sign: Signer): StepResult {
    match step
    case Checkout(reference, organizationId, planId, paymentMethod, taxId, session) =>
      StartCheckout(l, reference, organizationId, planId, paymentMethod, taxId, session)
    case Proof(organizationId, reference, uploadOk, now) => SubmitProof(l, organizationId, reference, uploadOk, now)
    case Webhook(event, now, config) => ApplyPaymentEvent(l, event, now, config, sign)
    case Assign(organizationId, planId, now) => AssignPlan(l, organizationId, planId, now)
    case AttachTrialPlan(organizationId, trialPlan, days, now) => AttachTrial(l, organizationId, trialPlan, days, now)
    case Catalogue(plans, organizations) =>
      StepResult(l.(plans := plans, organizations := organizations), CatalogueChanged)
  }

  ghost function Run(l: Ledger, steps: seq<Step>, sign: Signer): Ledger
    decreases |steps|
  {
    if steps == [] then l else Run(Do(l, steps[0], sign).ledger, steps[1..], sign)
  }
}

/**
 The billing service as the source writes it: methods that update the tables one statement after another. Each is
 proved to leave the tables as its step of BillingLedger says, and to keep the invariant. Methods run as database
 transactions, so an error after the first write puts the tables back.
 */
module BillingService {
  import opened Wrappers
  import opened Text
  import opened Calendar
  import opened IsoTime
  import opened Agt
  import opened BillingRules
  import opened PaymentProtocol
  import L = BillingLedger
  import opened BillingInvariant
  import opened BillingTheorems
  import Vat

  class Service {
    var plans: map<L.PlanId, L.Plan>
    var organizations: map<L.OrganizationId, L.Organization>
    var transactions: map<Reference, L.Transaction>
    var subscriptions: map<L.OrganizationId, L.Subscription>
    var series: map<L.SeriesKey, L.Series>
    /** What the paid periods were; no column of the database. */
    var extensions: seq<L.Extension>
    const sign: L.Signer

    function Tables(): L.Ledger
      reads this
    {
      L.Ledger(plans, organizations, transactions, subscriptions, series, extensions)
    }

    ghost predicate Valid()
      reads this
    {
      Inv(Tables(), sign)
    }

    constructor (sign: L.Signer)
      ensures Valid() && Tables() == L.EMPTY && this.sign == sign
    {
      EmptyLedger(sign);
      plans, organizations, transactions, subscriptions, series, extensions := map[], map[], map[], map[], map[], [];
      this.sign := sign;
    }

    /** Writes the row before asking the provider, so its answer finds a row to update, whichever it is. */
    method StartCheckout(reference: Reference, organizationId: L.OrganizationId, planId: L.PlanId,
                         paymentMethod: PaymentMethod, taxId: string, session: Result<Option<string>, string>)
      returns (reply: L.Reply)
      requires Valid()
      modifies this`transactions
      ensures Valid()
      ensures L.StepResult(Tables(), reply)
              == L.StartCheckout(old(Tables()), reference, organizationId, planId, paymentMethod, taxId, session)
    {
      hide Inv;
      DoKeepsInv(Tables(), L.Checkout(reference, organizationId, planId, paymentMethod, taxId, session), sign);
      if organizationId !in organizations || planId !in plans || !plans[planId].active {
        return L.Rejected(L.NotFound);
      }
      var plan := plans[planId];
      if plan.priceCents <= 0 {
        return L.Rejected(L.BadRequest);
      }
      if reference in transactions {
        return L.Rejected(L.UniqueViolation);
      }
      transactions := transactions[reference :=
        L.Transaction(organizationId, planId, paymentMethod, Pending, plan.priceCents, plan.currency, L.NonEmpty(taxId),
                      None, None, None, None, None, None)];
      match session {
        case Failure(message) =>
          transactions := transactions[reference :=
            transactions[reference].(status := Failed, failureReason := Some(Take(message, 300)))];
          assert transactions == old(transactions)[reference := transactions[reference]];
          return L.Rejected(L.ProviderError(message));
        case Success(providerReference) =>
          transactions := transactions[reference := transactions[reference].(providerReference := providerReference)];
          assert transactions == old(transactions)[reference := transactions[reference]];
          return L.CheckoutStarted;
      }
    }

    method SubmitPaymentProof(organizationId: L.OrganizationId, reference: Reference, uploadOk: bool, now: int)
      returns (reply: L.Reply)
      requires Valid()
      modifies this`transactions
      ensures Valid()
      ensures L.StepResult(Tables(), reply) == L.SubmitProof(old(Tables()), organizationId, reference, uploadOk, now)
    {
      hide Inv;
      DoKeepsInv(Tables(), L.Proof(organizationId, reference, uploadOk, now), sign);
      if reference !in transactions || transactions[reference].organizationId != organizationId {
        return L.Rejected(L.NotFound);
      }
      var t := transactions[reference];
      if t.status.Succeeded? {
        return L.Rejected(L.ProofRefused(AlreadyConfirmed));
      }
      if t.status.Failed? || t.status.Refunded? {
        return L.Rejected(L.ProofRefused(NoLongerAccepted));
      }
      if t.paymentMethod.Card? {
        return L.Rejected(L.ProofRefused(CardPayment));
      }
      if !uploadOk {
        return L.Rejected(L.InvalidUpload);
      }
      transactions := transactions[reference :=
        t.(proofSubmittedAt := Some(now), status := if t.status.Pending? then UnderReview else t.status)];
      return L.ProofSubmitted;
    }

    method AssignPlan(organizationId: L.OrganizationId, planId: L.PlanId, now: int) returns (reply: L.Reply)
      requires Valid()
      modifies this`subscriptions
      ensures Valid()
      ensures L.StepResult(Tables(), reply) == L.AssignPlan(old(Tables()), organizationId, planId, now)
    {
      hide Inv, AddInterval;
      DoKeepsInv(Tables(), L.Assign(organizationId, planId, now), sign);
      if organizationId !in organizations || planId !in plans || !plans[planId].active {
        return L.Rejected(L.NotFound);
      }
      var end := AddInterval(now, plans[planId].interval);
      subscriptions := subscriptions[organizationId := L.Subscription(planId, Period(Active, now, end, false))];
      return L.PlanAssigned;
    }

    /** The upsert with an empty update: an organization that has a subscription keeps it. */
    method AttachTrial(organizationId: L.OrganizationId, trialPlan: Option<L.PlanId>, days: nat, now: int)
      returns (reply: L.Reply)
      requires Valid()
      modifies this`subscriptions
      ensures Valid()
      ensures L.StepResult(Tables(), reply) == L.AttachTrial(old(Tables()), organizationId, trialPlan, days, now)
    {
      hide Inv;
      DoKeepsInv(Tables(), L.AttachTrialPlan(organizationId, trialPlan, days, now), sign);
      if trialPlan.None? {
        return L.Rejected(L.NotFound);
      }
      if organizationId !in subscriptions {
        var trial := Period(Trialing, now, now + days * MS_PER_DAY, false);
        subscriptions := subscriptions[organizationId := L.Subscription(trialPlan.value, trial)];
      }
      return L.TrialAttached;
    }

    /** The upsert that numbers a document; the row it leaves holds the number it handed out. */
    method AllocateInvoiceNumber(organizationId: L.OrganizationId, documentType: DocumentType, date: int)
      returns (a: L.Allocation)
      modifies this`series
      ensures a == L.AllocateInvoiceNumber(old(series), organizationId, documentType, date)
      ensures series == a.series
    {
      hide YearOf, FormatSeriesCode;
      var year := YearOf(DayOf(date));
      var key := L.SeriesKey(organizationId, documentType, year);
      if key in series {
        series := series[key := series[key].(nextNumber := series[key].nextNumber + 1)];
      } else {
        series := series[key := L.Series(FormatSeriesCode(documentType, year), 1)];
      }
      a := L.Allocation(series, key, series[key].code, series[key].nextNumber);
    }

    /** Reads any row that holds the number below; numbers are unique, so there is at most one. */
    method PreviousInvoiceHash(key: L.SeriesKey, sequence: int) returns (hash: string)
      requires NumbersUnique(transactions)
      ensures hash == L.PreviousInvoiceHash(transactions, key, sequence)
    {
      if sequence <= 1 {
        return "";
      }
      var n := sequence - 1;
      if r :| r in transactions && L.Holds(transactions, r, key, n) {
        assert L.HasDocument(transactions, key, n);
        hash := transactions[r].invoice.value.hash;
      } else {
        hash := "";
      }
    }

    /** A period that still runs keeps its start and grows at its end; otherwise a new one starts now. */
    method ExtendSubscription(organizationId: L.OrganizationId, planId: L.PlanId, existing: Option<Period>, now: int,
                              interval: BillingInterval)
      returns (period: Period)
      modifies this`subscriptions
      ensures period == Extend(existing, now, interval)
      ensures subscriptions == old(subscriptions)[organizationId := L.Subscription(planId, period)]
    {
      hide AddInterval;
      var start, base := now, now;
      if existing.Some? && existing.value.end > now {
        start, base := existing.value.start, existing.value.end;
      }
      period := Period(Active, start, AddInterval(base, interval), false);
      subscriptions := subscriptions[organizationId := L.Subscription(planId, period)];
    }

    method ApplyPaymentEvent(e: PaymentEvent, now: int, config: L.Config) returns (reply: L.Reply)
      requires Valid()
      modifies this
      ensures Valid()
      ensures L.StepResult(Tables(), reply) == L.ApplyPaymentEvent(old(Tables()), e, now, config, sign)
    {
      hide Inv, L.Settle;
      WebhookKeepsInv(Tables(), e, now, config, sign);
      if e.reference !in transactions {
        return L.Rejected(L.NotFound);
      }
      var t := transactions[e.reference];
      if t.providerEventId == Some(e.eventId) || t.status.Succeeded? {
        return L.EventDuplicate;
      }
      if !e.succeeded {
        if L.EventTaken(transactions, e.eventId) {
          return L.Rejected(L.UniqueViolation);
        }
        transactions := transactions[e.reference :=
          t.(status := Failed, providerEventId := Some(e.eventId), providerReference := e.providerReference,
             failureReason := Some("reported_failed_by_provider"))];
        return L.EventApplied;
      }
      if !t.status.Open() {
        return L.EventDuplicate;
      }
      if L.EventTaken(transactions, e.eventId) {
        return L.Rejected(L.UniqueViolation);
      }
      reply := SettleClaim(e, now, config);
    }

    /** Claim, extend, number, split, chain, sign and store; an error puts every table back. */
    method SettleClaim(e: PaymentEvent, now: int, config: L.Config) returns (reply: L.Reply)
      requires Valid()
      requires e.reference in transactions && transactions[e.reference].status.Open()
      requires !L.EventTaken(transactions, e.eventId)
      modifies this
      ensures L.StepResult(Tables(), reply) == L.Settle(old(Tables()), e, now, config, sign)
    {
      hide Inv, Extend, Vat.Breakdown, L.AllocateInvoiceNumber, L.Settle, WithInvoice, NumbersUnique, L.EventTaken;
      ghost var before := Tables();
      var transactions0, subscriptions0, series0 := transactions, subscriptions, series;
      var t := transactions[e.reference];
      transactions := transactions[e.reference := Claimed(t, e)];

      if t.planId !in plans {
        transactions := transactions0;
        MissingPlan(before, e, now, config, sign);
        return L.Rejected(L.NotFound);
      }
      var interval := plans[t.planId].interval;
      var existing := L.CurrentPeriod(subscriptions, t.organizationId);
      var period := ExtendSubscription(t.organizationId, t.planId, existing, now, interval);
      var a := AllocateInvoiceNumber(t.organizationId, FR, e.paidAt);
      var split := Vat.Breakdown(t.amountCents, config.ivaRateBps);
      if split.Failure? {
        transactions, subscriptions, series := transactions0, subscriptions0, series0;
        BadAmount(before, e, now, config, sign);
        return L.Rejected(L.InvalidAmount);
      }
      SettleParts(before, Tables(), e, now, config, sign);
      StoreInvoice(e.reference, a, e.paidAt, config, split.value);
      extensions := extensions + [L.Extension(t.organizationId, e.reference, now, existing, interval, period)];
      assert transactions == transactions0[e.reference := transactions[e.reference]];
      return L.EventApplied;
    }

    /** Chains, signs and stores the document of a claimed payment. */
    method StoreInvoice(reference: Reference, a: L.Allocation, issuedAt: int, config: L.Config, split: Vat.VatBreakdown)
      requires reference in transactions && NumbersUnique(transactions) && a.sequence >= 1
      modifies this`transactions
      ensures transactions
              == old(transactions)[reference := WithInvoice(old(Tables()), old(transactions)[reference], a, issuedAt,
                                                            config, split, sign)]
    {
      hide L.IssueInvoice, L.PreviousInvoiceHash, PreviousHashOf, NumbersUnique;
      var t := transactions[reference];
      var previous := PreviousInvoiceHash(a.key, a.sequence);
      var customer := L.InvoiceCustomer(Tables(), t);
      var invoice := L.IssueInvoice(t, a, issuedAt, customer, config, split, PreviousHashOf(previous), sign);
      transactions := transactions[reference := t.(customerTaxId := L.NonEmpty(customer), invoice := Some(invoice))];
    }
  }

  /** The row of a claimed payment with its document. */
  ghost function WithInvoice(l: L.Ledger, t: L.Transaction, a: L.Allocation, issuedAt: int, config: L.Config,
                             split: Vat.VatBreakdown, sign: L.Signer): L.Transaction
    requires a.sequence >= 1
  {
    var customer := L.InvoiceCustomer(l, t);
    var previous := PreviousHashOf(L.PreviousInvoiceHash(l.transactions, a.key, a.sequence));
    t.(customerTaxId := L.NonEmpty(customer),
       invoice := Some(L.IssueInvoice(t, a, issuedAt, customer, config, split, previous, sign)))
  }

  lemma BadAmount(l: L.Ledger, e: PaymentEvent, now: int, config: L.Config, sign: L.Signer)
    requires e.reference in l.transactions && l.transactions[e.reference].planId in l.plans
    requires Vat.Breakdown(l.transactions[e.reference].amountCents, config.ivaRateBps).Failure?
    ensures L.Settle(l, e, now, config, sign) == L.StepResult(l, L.Rejected(L.InvalidAmount))
  {
  }

  function Claimed(t: L.Transaction, e: PaymentEvent): L.Transaction {
    t.(status := Succeeded, providerEventId := Some(e.eventId), providerReference := e.providerReference,
       paidAt := Some(e.paidAt))
  }

  /** The parts of a settled payment, put together: the tables after the claim are enough to make the document. */
  lemma SettleParts(l: L.Ledger, claimed: L.Ledger, e: PaymentEvent, now: int, config: L.Config, sign: L.Signer)
    requires Inv(l, sign)
    requires e.reference in l.transactions && l.transactions[e.reference].planId in l.plans
    requires l.transactions[e.reference].status.Open()
    requires Vat.Breakdown(l.transactions[e.reference].amountCents, config.ivaRateBps).Success?
    requires claimed.organizations == l.organizations
    requires claimed.transactions == l.transactions[e.reference := Claimed(l.transactions[e.reference], e)]
    ensures var t := l.transactions[e.reference];
            var o := t.organizationId;
            var interval, existing := l.plans[t.planId].interval, L.CurrentPeriod(l.subscriptions, o);
            var period := Extend(existing, now, interval);
            var a := L.AllocateInvoiceNumber(l.series, o, FR, e.paidAt);
            var split := Vat.Breakdown(t.amountCents, config.ivaRateBps).value;
            && a.sequence >= 1 && NumbersUnique(claimed.transactions)
            && var paid := WithInvoice(claimed, Claimed(t, e), a, e.paidAt, config, split, sign);
               L.Settle(l, e, now, config, sign) == L.StepResult(
                 l.(transactions := l.transactions[e.reference := paid],
                    subscriptions := l.subscriptions[o := L.Subscription(t.planId, period)],
                    series := a.series,
                    extensions := l.extensions + [L.Extension(o, e.reference, now, existing, interval, period)]),
                 L.EventApplied)
  {
    hide Inv, Extend, L.AllocateInvoiceNumber, L.Settle, WithInvoice, L.PreviousInvoiceHash, L.HasDocument,
         NumbersUnique;
    ReadyToSettle(l, e, sign);
    ClaimedDocument(l, claimed, e, config, sign);
    SettleEquals(l, e, now, config, sign);
  }

  lemma ReadyToSettle(l: L.Ledger, e: PaymentEvent, sign: L.Signer)
    requires Inv(l, sign) && e.reference in l.transactions && l.transactions[e.reference].status.Open()
    ensures var t := l.transactions[e.reference];
            var a := L.AllocateInvoiceNumber(l.series, t.organizationId, FR, e.paidAt);
            && a.sequence >= 1 && !L.HasDocument(l.transactions, a.key, a.sequence)
            && NumbersUnique(l.transactions[e.reference := Claimed(t, e)])
            && L.PreviousInvoiceHash(l.transactions[e.reference := Claimed(t, e)], a.key, a.sequence)
               == L.PreviousInvoiceHash(l.transactions, a.key, a.sequence)
  {
    var t := l.transactions[e.reference];
    var a := L.AllocateInvoiceNumber(l.series, t.organizationId, FR, e.paidAt);
    assert RowOk(t);
    NextNumberIsFree(l, t.organizationId, e.paidAt, sign);
    ClaimKeepsNumbers(l.transactions, e.reference, Claimed(t, e), a.key, a.sequence);
    hide Inv, L.AllocateInvoiceNumber, L.HasDocument, NumbersUnique, L.PreviousInvoiceHash;
  }

  /** A document names nothing that the claim changes. */
  lemma ClaimedDocument(l: L.Ledger, claimed: L.Ledger, e: PaymentEvent, config: L.Config, sign: L.Signer)
    requires e.reference in l.transactions && claimed.organizations == l.organizations
    requires Vat.Breakdown(l.transactions[e.reference].amountCents, config.ivaRateBps).Success?
    requires var t := l.transactions[e.reference];
             var a := L.AllocateInvoiceNumber(l.series, t.organizationId, FR, e.paidAt);
             && a.sequence >= 1
             && L.PreviousInvoiceHash(claimed.transactions, a.key, a.sequence)
                == L.PreviousInvoiceHash(l.transactions, a.key, a.sequence)
    ensures var t := l.transactions[e.reference];
            var a := L.AllocateInvoiceNumber(l.series, t.organizationId, FR, e.paidAt);
            var split := Vat.Breakdown(t.amountCents, config.ivaRateBps).value;
            WithInvoice(claimed, Claimed(t, e), a, e.paidAt, config, split, sign)
            == Claimed(WithInvoice(l, t, a, e.paidAt, config, split, sign), e)
  {
    hide Vat.Breakdown, L.PreviousInvoiceHash, PreviousHashOf, L.AllocateInvoiceNumber, BuildInvoiceCanonical,
         InvoiceQrPayload, BuildInvoiceNumber, IsoString;
  }

  lemma SettleEquals(l: L.Ledger, e: PaymentEvent, now: int, config: L.Config, sign: L.Signer)
    requires e.reference in l.transactions && l.transactions[e.reference].planId in l.plans
    requires Vat.Breakdown(l.transactions[e.reference].amountCents, config.ivaRateBps).Success?
    requires var t := l.transactions[e.reference];
             var a := L.AllocateInvoiceNumber(l.series, t.organizationId, FR, e.paidAt);
             a.sequence >= 1 && !L.HasDocument(l.transactions, a.key, a.sequence)
    ensures var t := l.transactions[e.reference];
            var o := t.organizationId;
            var interval, existing := l.plans[t.planId].interval, L.CurrentPeriod(l.subscriptions, o);
            var period := Extend(existing, now, interval);
            var a := L.AllocateInvoiceNumber(l.series, o, FR, e.paidAt);
            var split := Vat.Breakdown(t.amountCents, config.ivaRateBps).value;
            var paid := Claimed(WithInvoice(l, t, a, e.paidAt, config, split, sign), e);
            L.Settle(l, e, now, config, sign) == L.StepResult(
              l.(transactions := l.transactions[e.reference := paid],
                 subscriptions := l.subscriptions[o := L.Subscription(t.planId, period)],
                 series := a.series,
                 extensions := l.extensions + [L.Extension(o, e.reference, now, existing, interval, period)]),
              L.EventApplied)
  {
    hide Extend, Vat.Breakdown, L.IssueInvoice, L.PreviousInvoiceHash, L.HasDocument, PreviousHashOf,
         L.AllocateInvoiceNumber;
  }

  /** A claim writes no number, so the holders of numbers and the hash before any number stay what they are. */
  lemma ClaimKeepsNumbers(transactions: Transactions, r: Reference, claimed: L.Transaction, key: L.SeriesKey,
                          sequence: int)
    requires r in transactions && transactions[r].invoice.None? && claimed.invoice.None?
    requires NumbersUnique(transactions)
    ensures NumbersUnique(transactions[r := claimed])
    ensures L.PreviousInvoiceHash(transactions[r := claimed], key, sequence)
            == L.PreviousInvoiceHash(transactions, key, sequence)
  {
    var after := transactions[r := claimed];
    assert forall q, k, n :: L.Holds(after, q, k, n) <==> L.Holds(transactions, q, k, n);
    var n := sequence - 1;
    assert L.HasDocument(after, key, n) <==> L.HasDocument(transactions, key, n);
  }
}

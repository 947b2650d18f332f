/** What each transaction row records, over whole runs of the billing ledger. */
module BillingRecords {
  import opened Wrappers
  import opened Text
  import opened Agt
  import opened BillingRules
  import opened IsoTime
  import opened PaymentProtocol
  import opened BillingLedger
  import opened BillingInvariant
  import opened BillingTheorems
  import Vat

  /* ---------------------------------------------------------------------- */
  /* Terms                                                                  */
  /* ---------------------------------------------------------------------- */

  datatype Terms = Terms(organizationId: OrganizationId, planId: PlanId, paymentMethod: PaymentMethod,
                         amountCents: int, currency: string)

  function TermsOf(t: Transaction): Terms {
    Terms(t.organizationId, t.planId, t.paymentMethod, t.amountCents, t.currency)
  }

  /** What a checkout offers: the price of an active plan, at this moment, to a known organization. */
  function OfferedTerms(l: Ledger, step: Step): Option<Terms> {
    if step.Checkout? && step.organizationId in l.organizations && step.planId in l.plans
       && l.plans[step.planId].active && l.plans[step.planId].priceCents > 0
    then
      var plan := l.plans[step.planId];
      Some(Terms(step.organizationId, step.planId, step.paymentMethod, plan.priceCents, plan.currency))
    else None
  }

  lemma TermsStep(l: Ledger, step: Step, sign: Signer, r: Reference)
    ensures var after := Do(l, step, sign).ledger.transactions;
            if r in l.transactions then r in after && TermsOf(after[r]) == TermsOf(l.transactions[r])
            else if step.Checkout? && step.reference == r && OfferedTerms(l, step).Some?
            then r in after && Some(TermsOf(after[r])) == OfferedTerms(l, step)
            else r !in after
  {
    hide AddInterval, ApplyPaymentEvent, Take;
    if step.Webhook? {
      WebhookTerms(l, step.event, step.now, step.config, sign, r);
    }
  }

  lemma WebhookTerms(l: Ledger, e: PaymentEvent, now: int, config: Config, sign: Signer, r: Reference)
    ensures var after := ApplyPaymentEvent(l, e, now, config, sign).ledger.transactions;
            && (r in after <==> r in l.transactions)
            && (r in l.transactions ==> TermsOf(after[r]) == TermsOf(l.transactions[r]))
  {
    hide Settle, ApplyPaymentEvent, RecordOk;
    WebhookCases(l, e, now, config, sign);
    if e.reference in l.transactions {
      SettledRecord(l, e, now, config, sign);
    }
  }

  /** The terms of the first checkout of the run that opens `r`. */
  ghost function FirstOffer(l: Ledger, steps: seq<Step>, sign: Signer, r: Reference): Option<Terms>
    decreases |steps|
  {
    if steps == [] then None
    else if steps[0].Checkout? && steps[0].reference == r && OfferedTerms(l, steps[0]).Some? then
      OfferedTerms(l, steps[0])
    else FirstOffer(Do(l, steps[0], sign).ledger, steps[1..], sign, r)
  }

  lemma {:induction false} TermsNeverChange(l: Ledger, steps: seq<Step>, sign: Signer, r: Reference)
    requires r in l.transactions
    ensures var after := Run(l, steps, sign).transactions;
            r in after && TermsOf(after[r]) == TermsOf(l.transactions[r])
    decreases |steps|
  {
    hide Do, TermsOf;
    if steps == [] {
    } else {
      TermsStep(l, steps[0], sign, r);
      TermsNeverChange(Do(l, steps[0], sign).ledger, steps[1..], sign, r);
    }
  }

  /**
   Whoever pays owes what was offered: a row exists exactly when a checkout opened it, and however the catalogue
   changes afterwards, it is charged the price its plan had at that checkout.
   */
  lemma {:induction false} ChargedAsOffered(l: Ledger, steps: seq<Step>, sign: Signer, r: Reference)
    requires r !in l.transactions
    ensures var after := Run(l, steps, sign).transactions;
            match FirstOffer(l, steps, sign, r)
            case Some(terms) => r in after && TermsOf(after[r]) == terms && terms.amountCents > 0
            case None => r !in after
    decreases |steps|
  {
    hide Do, TermsOf;
    if steps == [] {
    } else {
      TermsStep(l, steps[0], sign, r);
      var next := Do(l, steps[0], sign).ledger;
      if r in next.transactions {
        TermsNeverChange(next, steps[1..], sign, r);
      } else {
        ChargedAsOffered(next, steps[1..], sign, r);
      }
    }
  }

  predicate GaveTaxId(t: Transaction, taxId: string) {
    taxId != "" && t.customerTaxId == Some(taxId)
  }

  lemma TaxIdStep(l: Ledger, step: Step, sign: Signer, r: Reference, taxId: string)
    requires r in l.transactions && GaveTaxId(l.transactions[r], taxId)
    ensures var after := Do(l, step, sign).ledger.transactions; r in after && GaveTaxId(after[r], taxId)
  {
    hide AddInterval, ApplyPaymentEvent, Take;
    if step.Webhook? {
      WebhookTaxId(l, step.event, step.now, step.config, sign, r, taxId);
    }
  }

  lemma WebhookTaxId(l: Ledger, e: PaymentEvent, now: int, config: Config, sign: Signer, r: Reference, taxId: string)
    requires r in l.transactions && GaveTaxId(l.transactions[r], taxId)
    ensures var after := ApplyPaymentEvent(l, e, now, config, sign).ledger.transactions;
            r in after && GaveTaxId(after[r], taxId)
  {
    hide Settle, ApplyPaymentEvent, RecordOk;
    WebhookCases(l, e, now, config, sign);
    if e.reference in l.transactions {
      SettledRecord(l, e, now, config, sign);
      SettleReply(l, e, now, config, sign);
      if Settle(l, e, now, config, sign).reply.EventApplied? {
        SettledParties(l, e, now, config, sign);
      }
    }
  }

  /** A tax number given at checkout stays on the row over every run, whatever the organization's profile says. */
  lemma {:induction false} TaxIdSticks(l: Ledger, steps: seq<Step>, sign: Signer, r: Reference, taxId: string)
    requires r in l.transactions && GaveTaxId(l.transactions[r], taxId)
    ensures var after := Run(l, steps, sign).transactions; r in after && GaveTaxId(after[r], taxId)
    decreases |steps|
  {
    hide Do, GaveTaxId;
    if steps == [] {
    } else {
      TaxIdStep(l, steps[0], sign, r, taxId);
      TaxIdSticks(Do(l, steps[0], sign).ledger, steps[1..], sign, r, taxId);
    }
  }

  /* ---------------------------------------------------------------------- */
  /* Proofs, failures and printed codes                                     */
  /* ---------------------------------------------------------------------- */

  /** What the QR code on the document says, read field by field. */
  predicate QrNamesDocument(t: Transaction)
    requires t.invoice.Some?
  {
    var i := t.invoice.value;
    var fields := [i.issuerTaxId.GetOr(""), t.customerTaxId.GetOr(""), "FR", i.invoiceNumber, IsoString(i.issuedAt),
                   IntText(t.amountCents), t.currency, i.hash];
    (forall f :: f in fields ==> '|' !in f) ==> Split(i.qr, '|') == fields
  }

  /** An open payment is under review exactly when a proof was uploaded, and a card payment never has one. */
  predicate RecordOk(t: Transaction) {
    && (t.status.Open() ==> (t.status.UnderReview? <==> t.proofSubmittedAt.Some?))
    && (t.paymentMethod.Card? ==> t.proofSubmittedAt.None?)
    && (t.status.Failed? ==> t.failureReason.Some?)
    && (t.failureReason.Some? ==> |t.failureReason.value| <= 300)
    && (t.invoice.Some? ==> t.status.Succeeded? && QrNamesDocument(t))
  }

  ghost predicate RecordsOk(transactions: Transactions) {
    forall r :: r in transactions ==> RecordOk(transactions[r])
  }

  /** The code of an issued invoice is the eight printed values, so it can be read back. */
  lemma IssuedCodeReads(t: Transaction, a: Allocation, issuedAt: int, customer: string, config: Config,
                        split: Vat.VatBreakdown, previousHash: string, sign: Signer, paid: Transaction)
    requires a.sequence >= 1 && split.totalCents == t.amountCents
    requires paid.customerTaxId == NonEmpty(customer) && TermsOf(paid) == TermsOf(t)
    requires paid.invoice == Some(IssueInvoice(t, a, issuedAt, customer, config, split, previousHash, sign))
    ensures QrNamesDocument(paid)
  {
    hide IntText, IsoString, Split, Join, BuildInvoiceCanonical;
    var i := IssueInvoice(t, a, issuedAt, customer, config, split, previousHash, sign);
    var fields := [i.issuerTaxId.GetOr(""), customer, "FR", i.invoiceNumber, IsoString(i.issuedAt),
                   IntText(t.amountCents), t.currency, i.hash];
    assert i.qr == Join(fields, "|");
    if forall f :: f in fields ==> '|' !in f {
      SplitJoin(fields, '|');
    }
  }

  function TaxIdOf(organizations: map<OrganizationId, Organization>, o: OrganizationId): Option<string> {
    if o in organizations && organizations[o].taxId != Some("") then organizations[o].taxId else None
  }

  /**
   Who and what a settled payment's document names: the platform, the tax number given at checkout or else the
   organization's own at the time of payment, the rate in force, and the provider's time of payment.
   */
  lemma SettledParties(l: Ledger, e: PaymentEvent, now: int, config: Config, sign: Signer)
    requires e.reference in l.transactions && Settle(l, e, now, config, sign).reply.EventApplied?
    ensures var t := l.transactions[e.reference];
            var u := Settle(l, e, now, config, sign).ledger.transactions[e.reference];
            && u.invoice.Some?
            && u.invoice.value.issuerTaxId == (if config.platformTaxId == Some("") then None else config.platformTaxId)
            && (t.customerTaxId.Some? && t.customerTaxId != Some("") ==> u.customerTaxId == t.customerTaxId)
            && (t.customerTaxId.None? ==> u.customerTaxId == TaxIdOf(l.organizations, t.organizationId))
            && u.invoice.value.vatRateBps == config.ivaRateBps
            && u.paidAt == Some(e.paidAt) && u.invoice.value.issuedAt == e.paidAt
            && u.providerReference == e.providerReference && u.providerEventId == Some(e.eventId)
            && u.proofSubmittedAt == t.proofSubmittedAt && u.failureReason == t.failureReason
  {
    hide Extend, PreviousInvoiceHash, PreviousHashOf, Vat.Breakdown, HasDocument, AllocateInvoiceNumber,
         BuildInvoiceNumber,
         BuildInvoiceCanonical, IsoString, InvoiceQrPayload;
  }

  /** A settled row keeps the terms and the proof of the row it was, and prints a code that names it. */
  lemma SettledRecord(l: Ledger, e: PaymentEvent, now: int, config: Config, sign: Signer)
    requires e.reference in l.transactions
    ensures var after := Settle(l, e, now, config, sign).ledger.transactions;
            var t := l.transactions[e.reference];
            && e.reference in after
            && after == l.transactions[e.reference := after[e.reference]]
            && TermsOf(after[e.reference]) == TermsOf(t)
            && (RecordOk(t) && t.status.Open() ==> RecordOk(after[e.reference]))
  {
    hide Extend, PreviousInvoiceHash, PreviousHashOf, Vat.Breakdown, HasDocument, IssueInvoice, FormatSeriesCode,
         QrNamesDocument;
    var result := Settle(l, e, now, config, sign);
    var t, u := l.transactions[e.reference], result.ledger.transactions[e.reference];
    if result.reply.EventApplied? {
      var a := AllocateInvoiceNumber(l.series, t.organizationId, FR, e.paidAt);
      var split := Vat.Breakdown(t.amountCents, config.ivaRateBps).value;
      Vat.BreakdownConserves(t.amountCents, config.ivaRateBps);
      var previous := PreviousHashOf(PreviousInvoiceHash(l.transactions, a.key, a.sequence));
      IssuedCodeReads(t, a, e.paidAt, InvoiceCustomer(l, t), config, split, previous, sign, u);
    }
  }

  lemma RecordStep(l: Ledger, step: Step, sign: Signer)
    requires RecordsOk(l.transactions)
    ensures RecordsOk(Do(l, step, sign).ledger.transactions)
  {
    hide AddInterval, ApplyPaymentEvent, QrNamesDocument, StartCheckout, SubmitProof;
    match step
    case Webhook(e, now, config) => WebhookRecords(l, e, now, config, sign);
    case Checkout(_, _, _, _, _, _) => CheckoutRecords(l, step, sign);
    case Proof(_, _, _, _) => ProofRecords(l, step, sign);
    case _ =>
  }

  lemma CheckoutRecords(l: Ledger, step: Step, sign: Signer)
    requires RecordsOk(l.transactions) && step.Checkout?
    ensures RecordsOk(Do(l, step, sign).ledger.transactions)
  {
    hide QrNamesDocument;
  }

  /**
   What a checkout writes: a row that owes what is offered and keeps the tax number, open with the provider's reference,
   or failed with the first 300 characters of the provider's message. Without an offer, or under a taken reference,
   nothing is written.
   */
  lemma CheckoutWrites(l: Ledger, step: Step, sign: Signer)
    requires step.Checkout?
    ensures var r, result := step.reference, Do(l, step, sign);
            var known := step.organizationId in l.organizations && step.planId in l.plans
                         && l.plans[step.planId].active;
            if OfferedTerms(l, step).None? || r in l.transactions then
              && result.ledger == l
              && result.reply == Rejected(if !known then NotFound else if l.plans[step.planId].priceCents <= 0
                                          then BadRequest else UniqueViolation)
            else
              && r in result.ledger.transactions
              && var t := result.ledger.transactions[r];
                 && result.ledger == l.(transactions := l.transactions[r := t])
                 && Some(TermsOf(t)) == OfferedTerms(l, step)
                 && t.customerTaxId == (if step.taxId == "" then None else Some(step.taxId))
                 && t.providerEventId.None? && t.paidAt.None? && t.proofSubmittedAt.None? && t.invoice.None?
                 && match step.session
                    case Success(providerReference) =>
                      && result.reply == CheckoutStarted && t.status.Pending?
                      && t.providerReference == providerReference && t.failureReason.None?
                    case Failure(message) =>
                      && result.reply == Rejected(ProviderError(message)) && t.status.Failed?
                      && t.providerReference.None?
                      && t.failureReason == Some(if |message| <= 300 then message else message[..300])
  {
  }

  /**
   Which uploads are accepted, and what they write: an open transaction of the organization itself that is not paid by
   card goes under review, with the time, and nothing else changes. Another organization's does not exist for it.
   */
  lemma UploadAcceptedIff(l: Ledger, o: OrganizationId, r: Reference, uploadOk: bool, now: int)
    ensures var result := SubmitProof(l, o, r, uploadOk, now);
            && (result.reply.ProofSubmitted?
                <==> && r in l.transactions && l.transactions[r].organizationId == o
                     && (l.transactions[r].status.Pending? || l.transactions[r].status.UnderReview?)
                     && !l.transactions[r].paymentMethod.Card? && uploadOk)
            && (result.reply.ProofSubmitted? ==>
                  result.ledger == l.(transactions := l.transactions[
                    r := l.transactions[r].(status := UnderReview, proofSubmittedAt := Some(now))]))
            && (!result.reply.ProofSubmitted? ==> result.ledger == l)
            && (result.reply == Rejected(NotFound)
                <==> !(r in l.transactions && l.transactions[r].organizationId == o))
            && (r in l.transactions && l.transactions[r].organizationId == o ==>
                  var t := l.transactions[r];
                  && (result.reply == Rejected(ProofRefused(AlreadyConfirmed)) <==> t.status.Succeeded?)
                  && (result.reply == Rejected(ProofRefused(NoLongerAccepted))
                      <==> t.status.Failed? || t.status.Refunded?)
                  && (result.reply == Rejected(ProofRefused(CardPayment))
                      <==> t.status.Open() && t.paymentMethod.Card?)
                  && (result.reply == Rejected(InvalidUpload)
                      <==> t.status.Open() && !t.paymentMethod.Card? && !uploadOk))
  {
  }

  lemma ProofRecords(l: Ledger, step: Step, sign: Signer)
    requires RecordsOk(l.transactions) && step.Proof?
    ensures RecordsOk(Do(l, step, sign).ledger.transactions)
  {
    hide QrNamesDocument;
    var after := Do(l, step, sign).ledger.transactions;
    if after != l.transactions {
      assert RecordOk(l.transactions[step.reference]);
      assert after == l.transactions[step.reference := after[step.reference]];
    }
  }

  lemma WebhookRecords(l: Ledger, e: PaymentEvent, now: int, config: Config, sign: Signer)
    requires RecordsOk(l.transactions)
    ensures RecordsOk(ApplyPaymentEvent(l, e, now, config, sign).ledger.transactions)
  {
    if e.reference in l.transactions {
      hide RecordOk, ApplyPaymentEvent;
      WebhookRecord(l, e, now, config, sign);
    }
  }

  lemma WebhookRecord(l: Ledger, e: PaymentEvent, now: int, config: Config, sign: Signer)
    requires e.reference in l.transactions && RecordOk(l.transactions[e.reference])
    ensures var after := ApplyPaymentEvent(l, e, now, config, sign).ledger.transactions;
            && e.reference in after
            && after == l.transactions[e.reference := after[e.reference]]
            && RecordOk(after[e.reference])
  {
    hide Settle, ApplyPaymentEvent, QrNamesDocument;
    WebhookCases(l, e, now, config, sign);
    SettledRecord(l, e, now, config, sign);
  }

  /** In every reachable state every row is consistent with what happened to it. */
  lemma {:induction false} ReachableRecords(l: Ledger, steps: seq<Step>, sign: Signer)
    requires RecordsOk(l.transactions)
    ensures RecordsOk(Run(l, steps, sign).transactions)
    decreases |steps|
  {
    hide Do, RecordsOk;
    if steps == [] {
    } else {
      RecordStep(l, steps[0], sign);
      ReachableRecords(Do(l, steps[0], sign).ledger, steps[1..], sign);
    }
  }
}

/**
 A proof upload as the two database operations it is (proof.service.ts): a read that checks the row, and later a write
 of a status derived from that read. Other steps of the ledger may come between.
 */
module ProofRace {
  import opened Wrappers
  import opened BillingRules
  import opened PaymentProtocol
  import opened BillingLedger
  import opened BillingInvariant
  import opened BillingTheorems
  import opened BillingRecords
  import opened PaidTime
  import Agt
  import Vat

  /** The status the upload saw, if it goes on. */
  function ReadForProof(l: Ledger, organizationId: OrganizationId, r: Reference): Result<TransactionStatus, Error> {
    if r !in l.transactions || l.transactions[r].organizationId != organizationId then Failure(NotFound)
    else
      var t := l.transactions[r];
      match ProofRefusalOf(t.status, t.paymentMethod)
      case Some(refusal) => Failure(ProofRefused(refusal))
      case None => Success(t.status)
  }

  function WriteProof(l: Ledger, r: Reference, observed: TransactionStatus, now: int): Ledger
    requires r in l.transactions
  {
    var status := if observed.Pending? then UnderReview else observed;
    l.(transactions := l.transactions[r := l.transactions[r].(proofSubmittedAt := Some(now), status := status)])
  }

  /** Open, or decided by an event that the row carries. */
  predicate OpenOrMarked(t: Transaction) {
    t.status.Open() || t.providerEventId.Some?
  }

  lemma MarkStep(l: Ledger, step: Step, sign: Signer, r: Reference)
    requires r in l.transactions && OpenOrMarked(l.transactions[r])
    ensures r in Do(l, step, sign).ledger.transactions && OpenOrMarked(Do(l, step, sign).ledger.transactions[r])
  {
    hide AddInterval, ApplyPaymentEvent;
    if step.Webhook? {
      MarkWebhook(l, step.event, step.now, step.config, sign, r);
    }
  }

  lemma MarkWebhook(l: Ledger, e: PaymentEvent, now: int, config: Config, sign: Signer, r: Reference)
    requires r in l.transactions && OpenOrMarked(l.transactions[r])
    ensures var after := ApplyPaymentEvent(l, e, now, config, sign).ledger.transactions;
            r in after && OpenOrMarked(after[r])
  {
    hide Settle, ApplyPaymentEvent, RecordOk;
    WebhookCases(l, e, now, config, sign);
    if e.reference in l.transactions {
      SettledRecord(l, e, now, config, sign);
      SettleMarks(l, e, now, config, sign);
    }
  }

  lemma SettleMarks(l: Ledger, e: PaymentEvent, now: int, config: Config, sign: Signer)
    requires e.reference in l.transactions
    ensures var result := Settle(l, e, now, config, sign);
            if result.reply.EventApplied? then
              e.reference in result.ledger.transactions
              && result.ledger.transactions[e.reference].providerEventId == Some(e.eventId)
            else result.ledger == l
  {
    hide AddInterval, AllocateInvoiceNumber, IssueInvoice, PreviousInvoiceHash;
  }

  lemma {:induction false} MarkRun(l: Ledger, steps: seq<Step>, sign: Signer, r: Reference)
    requires r in l.transactions && OpenOrMarked(l.transactions[r])
    ensures var after := Run(l, steps, sign).transactions; r in after && OpenOrMarked(after[r])
    decreases |steps|
  {
    hide Do, OpenOrMarked;
    if steps == [] {
    } else {
      MarkStep(l, steps[0], sign, r);
      MarkRun(Do(l, steps[0], sign).ledger, steps[1..], sign, r);
    }
  }

  lemma WriteShape(l: Ledger, m: Ledger, organizationId: OrganizationId, r: Reference, now: int)
    requires ReadForProof(l, organizationId, r).Success?
    requires r in m.transactions && TermsOf(m.transactions[r]) == TermsOf(l.transactions[r])
    ensures var w := WriteProof(m, r, ReadForProof(l, organizationId, r).value, now);
            && w.transactions[r].status.UnderReview?
            && (w == SubmitProof(m, organizationId, r, true, now).ledger <==> m.transactions[r].status.Open())
  {
    var w := WriteProof(m, r, ReadForProof(l, organizationId, r).value, now);
    var submitted := SubmitProof(m, organizationId, r, true, now).ledger;
    if m.transactions[r].status.Open() {
      assert w.transactions == submitted.transactions;
    } else {
      assert submitted.transactions[r].status == m.transactions[r].status;
    }
  }

  /**
   Whatever happened since the read, the write leaves the row under review. It is the atomic upload, and keeps the
   invariant of the ledger, exactly when the row is still open: a paid row stays paid only if nothing is written.
   */
  lemma UploadIsAtomicIff(l: Ledger, organizationId: OrganizationId, r: Reference, steps: seq<Step>, now: int,
                          sign: Signer)
    requires Inv(l, sign) && ReadForProof(l, organizationId, r).Success?
    ensures var m := Run(l, steps, sign);
            && r in m.transactions
            && var w := WriteProof(m, r, ReadForProof(l, organizationId, r).value, now);
               && w.transactions[r].status.UnderReview?
               && (w == SubmitProof(m, organizationId, r, true, now).ledger <==> m.transactions[r].status.Open())
               && (Inv(w, sign) <==> m.transactions[r].status.Open())
  {
    var m := Run(l, steps, sign);
    assert OpenOrMarked(l.transactions[r]);
    hide Run, Inv, TermsOf;
    TermsNeverChange(l, steps, sign, r);
    MarkRun(l, steps, sign, r);
    WriteShape(l, m, organizationId, r, now);
    RunKeepsInv(l, steps, sign);
    var w := WriteProof(m, r, ReadForProof(l, organizationId, r).value, now);
    if m.transactions[r].status.Open() {
      DoKeepsInv(m, Proof(organizationId, r, true, now), sign);
    } else {
      MarkedUnderReview(w, r, sign);
    }
  }

  /** A row under review carries no event. */
  lemma MarkedUnderReview(w: Ledger, r: Reference, sign: Signer)
    requires r in w.transactions && w.transactions[r].status.UnderReview? && w.transactions[r].providerEventId.Some?
    ensures !Inv(w, sign)
  {
    assert !RowOk(w.transactions[r]);
  }

  /* ---------------------------------------------------------------------- */
  /* What a late write costs                                                */
  /* ---------------------------------------------------------------------- */

  /** A claimed payment settles whenever its plan is known and its number free, in any tables. */
  lemma FreeNumberSettles(l: Ledger, e: PaymentEvent, now: int, config: Config, sign: Signer)
    requires e.reference in l.transactions
    requires l.transactions[e.reference].planId in l.plans && l.transactions[e.reference].amountCents >= 0
    requires var a := AllocateInvoiceNumber(l.series, l.transactions[e.reference].organizationId, Agt.FR, e.paidAt);
             !HasDocument(l.transactions, a.key, a.sequence)
    ensures var result := Settle(l, e, now, config, sign);
            var a := AllocateInvoiceNumber(l.series, l.transactions[e.reference].organizationId, Agt.FR, e.paidAt);
            && e.reference in result.ledger.transactions
            && (var u := result.ledger.transactions[e.reference];
                && result.ledger.transactions == l.transactions[e.reference := u]
                && u.invoice.Some? && u.invoice.value.series == a.key && u.invoice.value.sequence == a.sequence)
            && result.ledger.series == a.series
            && |result.ledger.extensions| == |l.extensions| + 1
  {
    hide Extend, PreviousInvoiceHash, HasDocument, AllocateInvoiceNumber, Vat.Breakdown, Agt.BuildInvoiceCanonical,
         Agt.PreviousHashOf, Agt.InvoiceQrPayload, Agt.BuildInvoiceNumber;
    Vat.BreakdownConserves(l.transactions[e.reference].amountCents, config.ivaRateBps);
  }

  /** The first payment: the row holds its number, and the tables keep their invariant. */
  lemma FirstPayment(l: Ledger, e: PaymentEvent, now: int, config: Config, sign: Signer)
    returns (paid: Transaction, key: SeriesKey, n: nat)
    requires Inv(l, sign) && e.succeeded && e.reference in l.transactions && l.transactions[e.reference].status.Open()
    requires l.transactions[e.reference].planId in l.plans && !EventTaken(l.transactions, e.eventId)
    ensures var m := ApplyPaymentEvent(l, e, now, config, sign).ledger;
            && Inv(m, sign) && m.plans == l.plans
            && m.transactions == l.transactions[e.reference := paid]
            && Holds(m.transactions, e.reference, key, n)
            && key in m.series && m.series[key].nextNumber == n && n >= 1
            && |m.extensions| == |l.extensions| + 1
    ensures paid.providerEventId == Some(e.eventId) && paid.amountCents > 0
    ensures TermsOf(paid) == TermsOf(l.transactions[e.reference])
  {
    hide Inv, ApplyPaymentEvent, Settle, Agt.FormatSeriesCode, Extend, DocumentOk, SignedOver, EventTaken, RecordOk;
    WebhookKeepsInv(l, e, now, config, sign);
    OpenSettles(l, e, now, config, sign);
    paid, key, n := SettleShape(l, e, now, config, sign);
    SettledRecord(l, e, now, config, sign);
  }

  /** Tables that differ in no invoice have the same documents. */
  lemma SameHolders(m: Transactions, w: Transactions, r: Reference)
    requires r in m && r in w && w == m[r := w[r]] && w[r].invoice == m[r].invoice
    ensures forall key, n :: HasDocument(w, key, n) <==> HasDocument(m, key, n)
  {
    forall q, key, n
      ensures Holds(w, q, key, n) <==> Holds(m, q, key, n)
    {
    }
  }

  lemma AnotherNumber(m: Ledger, o: OrganizationId, date: int, sign: Signer, key: SeriesKey, n: nat)
    requires Inv(m, sign) && key in m.series && m.series[key].nextNumber == n
    ensures var a := AllocateInvoiceNumber(m.series, o, Agt.FR, date);
            && (a.key, a.sequence) != (key, n) && !HasDocument(m.transactions, a.key, a.sequence)
            && key in a.series && n <= a.series[key].nextNumber
    ensures NumbersUnique(m.transactions)
  {
    NextNumberIsFree(m, o, date, sign);
    hide AllocateInvoiceNumber, HasDocument;
  }

  /** The second payment takes the place of the first on the row, and nothing holds the first number any more. */
  lemma SecondPayment(m: Ledger, w: Ledger, e: PaymentEvent, now: int, config: Config, sign: Signer, key: SeriesKey,
                      n: nat)
    requires Inv(m, sign) && e.reference in m.transactions && Holds(m.transactions, e.reference, key, n)
    requires key in m.series && m.series[key].nextNumber == n
    requires m.transactions[e.reference].planId in m.plans && m.transactions[e.reference].amountCents > 0
    requires w == m.(transactions := w.transactions) && e.reference in w.transactions
    requires w.transactions == m.transactions[e.reference := w.transactions[e.reference]]
    requires w.transactions[e.reference].invoice == m.transactions[e.reference].invoice
    requires TermsOf(w.transactions[e.reference]) == TermsOf(m.transactions[e.reference])
    ensures var after := Settle(w, e, now, config, sign).ledger;
            && key in after.series && n <= after.series[key].nextNumber
            && !HasDocument(after.transactions, key, n)
            && |after.extensions| == |m.extensions| + 1
  {
    hide Settle, AllocateInvoiceNumber, Inv, HasDocument, NumbersUnique;
    var o := m.transactions[e.reference].organizationId;
    var a := AllocateInvoiceNumber(m.series, o, Agt.FR, e.paidAt);
    AnotherNumber(m, o, e.paidAt, sign, key, n);
    SameHolders(m.transactions, w.transactions, e.reference);
    FreeNumberSettles(w, e, now, config, sign);
    var after := Settle(w, e, now, config, sign).ledger;
    FirstNumberLost(m.transactions, after.transactions, e.reference, key, n, a.key, a.sequence);
  }

  lemma FirstNumberLost(m: Transactions, after: Transactions, r: Reference, key: SeriesKey, n: int, k: SeriesKey,
                        i: int)
    requires NumbersUnique(m) && Holds(m, r, key, n) && (k, i) != (key, n)
    requires r in after && after == m[r := after[r]] && Holds(after, r, k, i)
    ensures !HasDocument(after, key, n)
  {
    forall q
      ensures !Holds(after, q, key, n)
    {
      assert Holds(after, q, key, n) && q != r ==> Holds(m, q, key, n);
    }
  }

  lemma LateWrite(l: Ledger, m: Ledger, organizationId: OrganizationId, r: Reference, paid: Transaction, now: int)
    requires ReadForProof(l, organizationId, r).Success? && m.transactions == l.transactions[r := paid]
    ensures var w := WriteProof(m, r, ReadForProof(l, organizationId, r).value, now);
            && r in w.transactions && w == m.(transactions := w.transactions)
            && w.transactions == l.transactions[r := w.transactions[r]]
            && w.transactions == m.transactions[r := w.transactions[r]]
            && w.transactions[r].status.UnderReview? && w.transactions[r].invoice == paid.invoice
            && w.transactions[r].providerEventId == paid.providerEventId
            && TermsOf(w.transactions[r]) == TermsOf(paid)
  {
  }

  lemma SecondEventFree(l: Transactions, w: Transactions, r: Reference, first: EventId, second: EventId)
    requires r in w && w == l[r := w[r]] && w[r].providerEventId == Some(first)
    requires first != second && !EventTaken(l, second)
    ensures !EventTaken(w, second)
  {
  }

  lemma OpenSettles(w: Ledger, e: PaymentEvent, now: int, config: Config, sign: Signer)
    requires e.succeeded && e.reference in w.transactions && w.transactions[e.reference].status.Open()
    requires !EventTaken(w.transactions, e.eventId)
    ensures ApplyPaymentEvent(w, e, now, config, sign) == Settle(w, e, now, config, sign)
  {
    hide Settle;
    assert w.transactions[e.reference].providerEventId != Some(e.eventId);
  }

  /**
   A payment confirmed between read and write is taken twice: the late write reopens the row, a second event with a new
   id buys a second period and a second number for the one checkout, and no document holds the first number any more.
   */
  lemma LateWriteLosesNumber(l: Ledger, organizationId: OrganizationId, first: PaymentEvent, second: PaymentEvent,
                             now: int, config: Config, sign: Signer)
    requires Inv(l, sign) && ReadForProof(l, organizationId, first.reference).Success?
    requires l.transactions[first.reference].planId in l.plans
    requires first.succeeded && second.succeeded && second.reference == first.reference
    requires !EventTaken(l.transactions, first.eventId) && !EventTaken(l.transactions, second.eventId)
    requires first.eventId != second.eventId
    ensures var r := first.reference;
            var observed := ReadForProof(l, organizationId, r).value;
            var m := ApplyPaymentEvent(l, first, now, config, sign).ledger;
            r in m.transactions
            && var after := ApplyPaymentEvent(WriteProof(m, r, observed, now), second, now, config, sign).ledger;
               && |after.extensions| == |l.extensions| + 2
               && (exists key, n :: key in after.series && 1 <= n <= after.series[key].nextNumber
                                    && !HasDocument(after.transactions, key, n))
               && !Inv(after, sign)
  {
    var r, observed := first.reference, ReadForProof(l, organizationId, first.reference).value;
    var paid, key, n := FirstPayment(l, first, now, config, sign);
    var m := ApplyPaymentEvent(l, first, now, config, sign).ledger;
    hide Settle, Inv, HasDocument, Holds, ApplyPaymentEvent, EventTaken, TermsOf;
    var w := WriteProof(m, r, observed, now);
    LateWrite(l, m, organizationId, r, paid, now);
    SecondEventFree(l.transactions, w.transactions, r, first.eventId, second.eventId);
    OpenSettles(w, second, now, config, sign);
    var after := ApplyPaymentEvent(w, second, now, config, sign).ledger;
    SecondPayment(m, w, second, now, config, sign, key, n);
    NotDense(after, key, n, sign);
  }

  /** Reached from the empty tables, for every instant: one checkout, two periods, and a number without a document. */
  lemma NumberLostFromEmpty(now: int, config: Config, sign: Signer)
    ensures var l := Run(EMPTY, TwoMonthsPaid(now, config)[..3], sign);
            var first, second := PaymentEvent("1", true, "A", None, now), PaymentEvent("2", true, "A", None, now);
            && ReadForProof(l, "org", "A") == Success(Pending)
            && var m := ApplyPaymentEvent(l, first, now, config, sign).ledger;
               "A" in m.transactions
               && var after := ApplyPaymentEvent(WriteProof(m, "A", Pending, now), second, now, config, sign).ledger;
                  && |after.extensions| == 2
                  && exists key, n :: key in after.series && 1 <= n <= after.series[key].nextNumber
                                      && !HasDocument(after.transactions, key, n)
  {
    CheckedOut(now, config, sign);
    ReachableInv(TwoMonthsPaid(now, config)[..3], sign);
    hide Run, Inv, ApplyPaymentEvent, HasDocument, WriteProof;
    var first, second := PaymentEvent("1", true, "A", None, now), PaymentEvent("2", true, "A", None, now);
    LateWriteLosesNumber(CHECKED_OUT, "org", first, second, now, config, sign);
  }

  lemma NotDense(l: Ledger, key: SeriesKey, n: int, sign: Signer)
    requires key in l.series && 1 <= n <= l.series[key].nextNumber && !HasDocument(l.transactions, key, n)
    ensures !Inv(l, sign)
  {
  }
}

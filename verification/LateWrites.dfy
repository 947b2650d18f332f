/**
 The other writes of a payment row that name only the row (billing.service.ts, customer-subscription.service.ts,
 customer-proof.service.ts): the failure a webhook reports, the failure of a checkout, and a customer's proof. Each may
 come after steps that the check before it did not see.
 */
module LateWrites {
  import opened Wrappers
  import opened Text
  import opened PaymentProtocol
  import opened BillingLedger
  import opened BillingInvariant
  import opened BillingTheorems
  import opened CustomerLedger

  /* ---------------------------------------------------------------------- */
  /* Organizations                                                          */
  /* ---------------------------------------------------------------------- */

  predicate CarriedElsewhere(transactions: Transactions, r: Reference, eventId: EventId) {
    exists s :: s in transactions && s != r && transactions[s].providerEventId == Some(eventId)
  }

  /** The update for an event that reports a failure. The index on event ids may refuse it. */
  function WriteFailure(m: Ledger, e: PaymentEvent): Option<Ledger>
    requires e.reference in m.transactions
  {
    if CarriedElsewhere(m.transactions, e.reference, e.eventId) then None
    else Some(m.(transactions := m.transactions[e.reference := FailedRow(m.transactions[e.reference], e)]))
  }

  /** The update after a provider refused the checkout. */
  function WriteCheckoutFailure(m: Ledger, r: Reference, message: string): Ledger
    requires r in m.transactions
  {
    var failed := m.transactions[r].(status := Failed, failureReason := Some(Take(message, 300)));
    m.(transactions := m.transactions[r := failed])
  }

  /** A row written as failed keeps the invariant exactly when it was not paid. */
  lemma FailedRowIff(m: Ledger, r: Reference, t: Transaction, sign: Signer)
    requires Inv(m, sign) && r in m.transactions && t.status.Failed?
    requires t.amountCents == m.transactions[r].amountCents && t.invoice == m.transactions[r].invoice
    requires t.providerEventId.Some? ==>
               forall s :: s in m.transactions && s != r ==> m.transactions[s].providerEventId != t.providerEventId
    ensures Inv(m.(transactions := m.transactions[r := t]), sign) <==> !m.transactions[r].status.Succeeded?
  {
    assert RowOk(m.transactions[r]);
    if m.transactions[r].status.Succeeded? {
      FailedWithInvoice(m.(transactions := m.transactions[r := t]), r, sign);
    } else {
      hide Inv;
      WriteUnpaidRow(m, r, t, sign);
    }
  }

  lemma FailedWithInvoice(w: Ledger, r: Reference, sign: Signer)
    requires r in w.transactions && w.transactions[r].status.Failed? && w.transactions[r].invoice.Some?
    ensures !Inv(w, sign)
  {
    assert !RowOk(w.transactions[r]);
  }

  /** A paid row that loses its status leaves a bought period that no payment accounts for. */
  lemma PeriodWithoutPayment(m: Ledger, r: Reference, t: Transaction, sign: Signer)
    requires Inv(m, sign) && r in m.transactions && m.transactions[r].status.Succeeded? && t.status.Failed?
    ensures var o := m.transactions[r].organizationId;
            |PaidOf(m.transactions[r := t], o)| + 1 == ExtensionsOf(m.extensions, o)
  {
    var o := m.transactions[r].organizationId;
    PaidLess(m.transactions, r, t);
    assert CountsOk(m);
    hide Inv, PaidOf, NumbersIssued, ExtensionsOf;
    assert |PaidOf(m.transactions, o)| == NumbersIssued(m.series, o) == ExtensionsOf(m.extensions, o);
  }

  lemma PaidLess(transactions: Transactions, r: Reference, t: Transaction)
    requires r in transactions && transactions[r].status.Succeeded? && t.status.Failed?
    ensures var o := transactions[r].organizationId;
            |PaidOf(transactions[r := t], o)| == |PaidOf(transactions, o)| - 1
  {
    var o := transactions[r].organizationId;
    assert PaidOf(transactions[r := t], o) == PaidOf(transactions, o) - {r};
  }

  /**
   A failure that was judged on an older row is refused exactly when another row carries its event. Otherwise it is what
   the event would do now, and keeps the invariant, exactly when the row has not been paid in between; a paid row leaves
   its organization with one more period than payments.
   */
  lemma LateFailureIff(m: Ledger, e: PaymentEvent, now: int, config: Config, sign: Signer)
    requires Inv(m, sign) && !e.succeeded && e.reference in m.transactions
    requires m.transactions[e.reference].providerEventId != Some(e.eventId)
    ensures var t, w := m.transactions[e.reference], WriteFailure(m, e);
            && (w.None? <==> exists s :: s in m.transactions && m.transactions[s].providerEventId == Some(e.eventId))
            && (w.Some? ==>
                  && (Inv(w.value, sign) <==> !t.status.Succeeded?)
                  && (w.value == ApplyPaymentEvent(m, e, now, config, sign).ledger <==> !t.status.Succeeded?)
                  && (t.status.Succeeded? ==>
                        |PaidOf(w.value.transactions, t.organizationId)| + 1
                        == ExtensionsOf(w.value.extensions, t.organizationId)))
  {
    hide Inv, Settle, PaidOf, ExtensionsOf;
    var t := m.transactions[e.reference];
    if !CarriedElsewhere(m.transactions, e.reference, e.eventId) {
      FailedRowIff(m, e.reference, FailedRow(t, e), sign);
      if t.status.Succeeded? {
        PeriodWithoutPayment(m, e.reference, FailedRow(t, e), sign);
        assert WriteFailure(m, e).value.transactions[e.reference].status.Failed?;
      }
    }
  }

  /** The mark of a refused checkout is harmless exactly when no event has paid the row in the meantime. */
  lemma LateCheckoutFailureIff(m: Ledger, r: Reference, message: string, sign: Signer)
    requires Inv(m, sign) && r in m.transactions
    ensures var t, w := m.transactions[r], WriteCheckoutFailure(m, r, message);
            && (Inv(w, sign) <==> !t.status.Succeeded?)
            && (t.status.Succeeded? ==>
                  |PaidOf(w.transactions, t.organizationId)| + 1 == ExtensionsOf(w.extensions, t.organizationId))
  {
    var t := m.transactions[r];
    var failed := t.(status := Failed, failureReason := Some(Take(message, 300)));
    assert EventsUnique(m.transactions);
    hide Inv, PaidOf, ExtensionsOf, Take;
    FailedRowIff(m, r, failed, sign);
    if t.status.Succeeded? {
      PeriodWithoutPayment(m, r, failed, sign);
    }
  }

  /* ---------------------------------------------------------------------- */
  /* Customers                                                              */
  /* ---------------------------------------------------------------------- */

  /** The status the upload saw, if it goes on. */
  function ReadForProof(c: Customers, userId: UserId, r: Reference): Result<TransactionStatus, Error> {
    if r !in c.payments || c.payments[r].userId != userId then Failure(NotFound)
    else
      var p := c.payments[r];
      if p.status.Succeeded? then Failure(ProofRefused(AlreadyConfirmed))
      else if p.status.Failed? || p.status.Refunded? then Failure(ProofRefused(NoLongerAccepted))
      else Success(p.status)
  }

  function WriteProof(c: Customers, r: Reference, observed: TransactionStatus, now: int): Customers
    requires r in c.payments
  {
    var status := if observed.Pending? then UnderReview else observed;
    c.(payments := c.payments[r := c.payments[r].(proofSubmittedAt := Some(now), status := status)])
  }

  /** Open, or decided by an event that the row carries. */
  predicate OpenOrMarked(p: CustomerPayment) {
    p.status.Open() || p.providerEventId.Some?
  }

  lemma MarkStep(c: Customers, step: CustomerStep, userId: UserId, r: Reference)
    requires r in c.payments && c.payments[r].userId == userId && OpenOrMarked(c.payments[r])
    ensures var after := DoCustomer(c, step).customers.payments;
            r in after && after[r].userId == userId && OpenOrMarked(after[r])
  {
    hide Extend, Take;
  }

  lemma {:induction false} MarkRun(c: Customers, steps: seq<CustomerStep>, userId: UserId, r: Reference)
    requires r in c.payments && c.payments[r].userId == userId && OpenOrMarked(c.payments[r])
    ensures var after := RunCustomers(c, steps).payments;
            r in after && after[r].userId == userId && OpenOrMarked(after[r])
    decreases |steps|
  {
    hide DoCustomer, OpenOrMarked;
    if steps == [] {
    } else {
      MarkStep(c, steps[0], userId, r);
      MarkRun(DoCustomer(c, steps[0]).customers, steps[1..], userId, r);
    }
  }

  lemma ProofWrite(m: Customers, userId: UserId, r: Reference, observed: TransactionStatus, now: int)
    requires CustomersInv(m) && observed.Open()
    requires r in m.payments && m.payments[r].userId == userId && OpenOrMarked(m.payments[r])
    ensures var w := WriteProof(m, r, observed, now);
            && (w == SubmitCustomerProof(m, userId, r, true, now).customers <==> m.payments[r].status.Open())
            && (CustomersInv(w) <==> m.payments[r].status.Open())
  {
    var w := WriteProof(m, r, observed, now);
    var submitted := SubmitCustomerProof(m, userId, r, true, now).customers;
    if m.payments[r].status.Open() {
      assert w.payments == submitted.payments;
      DoCustomerKeepsInv(m, CustomerProof(userId, r, true, now));
    } else {
      assert submitted.payments[r].status == m.payments[r].status;
      assert !PaymentOk(w.payments[r]);
    }
  }

  /** A customer's upload is atomic, and keeps the invariant, exactly when the payment is still open at the write. */
  lemma CustomerUploadIsAtomicIff(c: Customers, userId: UserId, r: Reference, steps: seq<CustomerStep>, now: int)
    requires CustomersInv(c) && ReadForProof(c, userId, r).Success?
    ensures var m := RunCustomers(c, steps);
            && r in m.payments
            && var w := WriteProof(m, r, ReadForProof(c, userId, r).value, now);
               && (w == SubmitCustomerProof(m, userId, r, true, now).customers <==> m.payments[r].status.Open())
               && (CustomersInv(w) <==> m.payments[r].status.Open())
  {
    hide CustomersInv, RunCustomers, SubmitCustomerProof, WriteProof;
    MarkRun(c, steps, userId, r);
    RunCustomersKeepsInv(c, steps);
    ProofWrite(RunCustomers(c, steps), userId, r, ReadForProof(c, userId, r).value, now);
  }

  /** A payment written as failed keeps the invariant exactly when it had not succeeded. */
  lemma CustomerFailureIff(m: Customers, r: Reference, p: CustomerPayment)
    requires CustomersInv(m) && r in m.payments && p.status.Failed? && p.userId == m.payments[r].userId
    requires p.amountCents == m.payments[r].amountCents
    requires p.providerEventId.Some? ==>
               forall s :: s in m.payments && s != r ==> m.payments[s].providerEventId != p.providerEventId
    ensures CustomersInv(m.(payments := m.payments[r := p])) <==> !m.payments[r].status.Succeeded?
  {
    var w := m.(payments := m.payments[r := p]);
    hide PaidBy, MonthsOf;
    if m.payments[r].status.Succeeded? {
      var u := p.userId;
      assert |PaidBy(w.payments, u)| == |PaidBy(m.payments, u)| - 1 by { PaidByLess(m.payments, r, p); }
      assert |PaidBy(m.payments, u)| == MonthsOf(m.months, u);
    } else {
      forall u: UserId
        ensures |PaidBy(w.payments, u)| == MonthsOf(w.months, u)
      {
        PaidByStep(m.payments, r, p, u);
      }
    }
  }

  lemma PaidByLess(payments: map<Reference, CustomerPayment>, r: Reference, p: CustomerPayment)
    requires r in payments && payments[r].status.Succeeded? && p.status.Failed? && p.userId == payments[r].userId
    ensures |PaidBy(payments[r := p], p.userId)| == |PaidBy(payments, p.userId)| - 1
  {
    assert PaidBy(payments[r := p], p.userId) == PaidBy(payments, p.userId) - {r};
  }
}

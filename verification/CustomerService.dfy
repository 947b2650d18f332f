/**
 The end-customer service as the source writes it (customer-subscription.service.ts, customer-proof.service.ts):
 methods that update the two tables one statement after another, each proved to be its step of CustomerLedger.
 */
module CustomerService {
  import opened Wrappers
  import opened Text
  import opened BillingRules
  import opened PaymentProtocol
  import opened BillingLedger
  import opened CustomerLedger

  class Service {
    var payments: map<Reference, CustomerPayment>
    var subscriptions: map<UserId, Period>
    /** Which months were bought; no column of the database. */
    var months: seq<MonthBought>

    function Tables(): Customers
      reads this
    {
      Customers(payments, subscriptions, months)
    }

    ghost predicate Valid()
      reads this
    {
      CustomersInv(Tables())
    }

    constructor ()
      ensures Valid() && Tables() == NO_CUSTOMERS
    {
      NoCustomersInv();
      payments, subscriptions, months := map[], map[], [];
    }

    method StartCheckout(reference: Reference, userId: UserId, paymentMethod: PaymentMethod,
                         session: Result<Option<string>, string>)
      returns (reply: Reply)
      requires Valid()
      modifies this`payments
      ensures Valid()
      ensures CustomerResult(Tables(), reply)
              == StartCustomerCheckout(old(Tables()), reference, userId, paymentMethod, session)
    {
      hide CustomersInv;
      DoCustomerKeepsInv(Tables(), CustomerCheckout(reference, userId, paymentMethod, session));
      if reference in payments {
        return Rejected(UniqueViolation);
      }
      payments := payments[reference :=
        CustomerPayment(userId, paymentMethod, Pending, PRICE_CENTS, CURRENCY, None, None, None, None, None)];
      match session {
        case Failure(message) =>
          payments := payments[reference :=
            payments[reference].(status := Failed, failureReason := Some(Take(message, 300)))];
          assert payments == old(payments)[reference := payments[reference]];
          return Rejected(ProviderError(message));
        case Success(providerReference) =>
          payments := payments[reference := payments[reference].(providerReference := providerReference)];
          assert payments == old(payments)[reference := payments[reference]];
          return CheckoutStarted;
      }
    }

    method SubmitProof(userId: UserId, reference: Reference, uploadOk: bool, now: int) returns (reply: Reply)
      requires Valid()
      modifies this`payments
      ensures Valid()
      ensures CustomerResult(Tables(), reply) == SubmitCustomerProof(old(Tables()), userId, reference, uploadOk, now)
    {
      hide CustomersInv;
      DoCustomerKeepsInv(Tables(), CustomerProof(userId, reference, uploadOk, now));
      if reference !in payments || payments[reference].userId != userId {
        return Rejected(NotFound);
      }
      var p := payments[reference];
      if p.status.Succeeded? {
        return Rejected(ProofRefused(AlreadyConfirmed));
      }
      if p.status.Failed? || p.status.Refunded? {
        return Rejected(ProofRefused(NoLongerAccepted));
      }
      if !uploadOk {
        return Rejected(InvalidUpload);
      }
      payments := payments[reference :=
        p.(proofSubmittedAt := Some(now), status := if p.status.Pending? then UnderReview else p.status)];
      return ProofSubmitted;
    }

    /** The upsert with an empty update: a second trial changes nothing. */
    method AttachTrial(userId: UserId, now: int) returns (reply: Reply)
      requires Valid()
      modifies this`subscriptions
      ensures Valid()
      ensures CustomerResult(Tables(), reply) == AttachCustomerTrial(old(Tables()), userId, now)
    {
      hide CustomersInv;
      DoCustomerKeepsInv(Tables(), CustomerTrial(userId, now));
      if userId !in subscriptions {
        subscriptions := subscriptions[userId := Trial(now, TRIAL_DAYS)];
      }
      return TrialAttached;
    }

    /** One transaction: claim the row, then extend the period; a taken event id aborts before the first write. */
    method ApplyPaymentEvent(e: PaymentEvent, now: int) returns (reply: Reply)
      requires Valid()
      modifies this
      ensures Valid()
      ensures CustomerResult(Tables(), reply) == ApplyCustomerPaymentEvent(old(Tables()), e, now)
    {
      hide CustomersInv, AddInterval;
      DoCustomerKeepsInv(Tables(), CustomerWebhook(e, now));
      if e.reference !in payments {
        return Rejected(NotFound);
      }
      var p := payments[e.reference];
      if p.providerEventId == Some(e.eventId) || p.status.Succeeded? {
        return EventDuplicate;
      }
      if !e.succeeded {
        if CustomerEventTaken(payments, e.eventId) {
          return Rejected(UniqueViolation);
        }
        payments := payments[e.reference :=
          p.(status := Failed, providerEventId := Some(e.eventId), providerReference := e.providerReference,
             failureReason := Some("reported_failed_by_provider"))];
        return EventApplied;
      }
      if !p.status.Open() {
        return EventDuplicate;
      }
      if CustomerEventTaken(payments, e.eventId) {
        return Rejected(UniqueViolation);
      }
      payments := payments[e.reference :=
        p.(status := Succeeded, providerEventId := Some(e.eventId), providerReference := e.providerReference,
           paidAt := Some(e.paidAt))];
      var existing := if p.userId in subscriptions then Some(subscriptions[p.userId]) else None;
      var stillValid := existing.Some? && existing.value.end > now;
      var start := if stillValid then existing.value.start else now;
      var end := AddInterval(if stillValid then existing.value.end else now, Monthly);
      var period := Period(Active, start, end, false);
      subscriptions := subscriptions[p.userId := period];
      months := months + [MonthBought(p.userId, e.reference, now, existing, period)];
      return EventApplied;
    }
  }
}

/** The end-customer payments and subscriptions (customer-subscription.service.ts, customer-proof.service.ts). */
module CustomerLedger {
  import opened Wrappers
  import opened Text
  import opened Calendar
  import opened BillingRules
  import opened PaymentProtocol
  import opened BillingLedger

  type UserId = string

  const PRICE_CENTS: int := 200_000
  const CURRENCY: string := "AOA"
  const TRIAL_DAYS: nat := 30

  datatype CustomerPayment = CustomerPayment(
    userId: UserId,
    paymentMethod: PaymentMethod,
    status: TransactionStatus,
    amountCents: int,
    currency: string,
    providerEventId: Option<EventId>,
    providerReference: Option<string>,
    paidAt: Option<int>,
    proofSubmittedAt: Option<int>,
    failureReason: Option<string>)

  /** A history record: one month bought by a customer. */
  datatype MonthBought = MonthBought(userId: UserId, reference: Reference, at: int, existing: Option<Period>,
                                     period: Period)

  datatype Customers = Customers(
    payments: map<Reference, CustomerPayment>,
    subscriptions: map<UserId, Period>,
    months: seq<MonthBought>)

  const NO_CUSTOMERS: Customers := Customers(map[], map[], [])

  datatype CustomerResult = CustomerResult(customers: Customers, reply: Reply)

  function StartCustomerCheckout(c: Customers, reference: Reference, userId: UserId, paymentMethod: PaymentMethod,
                                 session: Result<Option<string>, string>): CustomerResult
  {
    if reference in c.payments then CustomerResult(c, Rejected(UniqueViolation))
    else
      var created := CustomerPayment(userId, paymentMethod, Pending, PRICE_CENTS, CURRENCY, None, None, None, None,
                                     None);
      match session
      case Success(providerReference) =>
        CustomerResult(c.(payments := c.payments[reference := created.(providerReference := providerReference)]),
                       CheckoutStarted)
      case Failure(message) =>
        var failed := created.(status := Failed, failureReason := Some(Take(message, 300)));
        CustomerResult(c.(payments := c.payments[reference := failed]), Rejected(ProviderError(message)))
  }

  /** Unlike an organization's proof, a customer's is accepted for card payments too. */
  function SubmitCustomerProof(c: Customers, userId: UserId, reference: Reference, uploadOk: bool,
                               now: int): CustomerResult {
    if reference !in c.payments || c.payments[reference].userId != userId then CustomerResult(c, Rejected(NotFound))
    else
      var p := c.payments[reference];
      if p.status.Succeeded? then CustomerResult(c, Rejected(ProofRefused(AlreadyConfirmed)))
      else if p.status.Failed? || p.status.Refunded? then CustomerResult(c, Rejected(ProofRefused(NoLongerAccepted)))
      else if !uploadOk then CustomerResult(c, Rejected(InvalidUpload))
      else
        var reviewed := p.(proofSubmittedAt := Some(now),
                           status := if p.status.Pending? then UnderReview else p.status);
        CustomerResult(c.(payments := c.payments[reference := reviewed]), ProofSubmitted)
  }

  function AttachCustomerTrial(c: Customers, userId: UserId, now: int): CustomerResult {
    if userId in c.subscriptions then CustomerResult(c, TrialAttached)
    else CustomerResult(c.(subscriptions := c.subscriptions[userId := Trial(now, TRIAL_DAYS)]), TrialAttached)
  }

  /** The same for a customer, whose card payments take a proof too. */
  lemma CustomerUploadAcceptedIff(c: Customers, userId: UserId, r: Reference, uploadOk: bool, now: int)
    ensures var result := SubmitCustomerProof(c, userId, r, uploadOk, now);
            && (result.reply.ProofSubmitted?
                <==> && r in c.payments && c.payments[r].userId == userId
                     && (c.payments[r].status.Pending? || c.payments[r].status.UnderReview?) && uploadOk)
            && (result.reply.ProofSubmitted? ==>
                  result.customers == c.(payments := c.payments[
                    r := c.payments[r].(status := UnderReview, proofSubmittedAt := Some(now))]))
            && (!result.reply.ProofSubmitted? ==> result.customers == c)
            && (result.reply == Rejected(NotFound) <==> !(r in c.payments && c.payments[r].userId == userId))
            && (r in c.payments && c.payments[r].userId == userId ==>
                  var p := c.payments[r];
                  && (result.reply == Rejected(ProofRefused(AlreadyConfirmed)) <==> p.status.Succeeded?)
                  && (result.reply == Rejected(ProofRefused(NoLongerAccepted))
                      <==> p.status.Failed? || p.status.Refunded?)
                  && (result.reply == Rejected(InvalidUpload) <==> p.status.Open() && !uploadOk))
  {
  }

  /** What a checkout writes: 2000 kwanzas, open or failed by the provider's answer; a taken reference is refused. */
  lemma CustomerCheckoutWrites(c: Customers, r: Reference, userId: UserId, paymentMethod: PaymentMethod,
                               session: Result<Option<string>, string>)
    ensures var result := StartCustomerCheckout(c, r, userId, paymentMethod, session);
            if r in c.payments then result == CustomerResult(c, Rejected(UniqueViolation))
            else
              && r in result.customers.payments
              && var p := result.customers.payments[r];
                 && result.customers == c.(payments := c.payments[r := p])
                 && p.userId == userId && p.paymentMethod == paymentMethod
                 && p.amountCents == 200_000 && p.currency == "AOA"
                 && p.providerEventId.None? && p.paidAt.None? && p.proofSubmittedAt.None?
                 && match session
                    case Success(providerReference) =>
                      && result.reply == CheckoutStarted && p.status.Pending?
                      && p.providerReference == providerReference && p.failureReason.None?
                    case Failure(message) =>
                      && result.reply == Rejected(ProviderError(message)) && p.status.Failed?
                      && p.providerReference.None?
                      && p.failureReason == Some(if |message| <= 300 then message else message[..300])
  {
  }

  /**
   What an event does, decided by the status of the payment alone: nothing if it is decided by success or by this very
   event, a failure if it reports one, a month if it reports success and the payment is open.
   */
  lemma CustomerEventCases(c: Customers, e: PaymentEvent, now: int)
    ensures var result := ApplyCustomerPaymentEvent(c, e, now);
            if e.reference !in c.payments then result == CustomerResult(c, Rejected(NotFound))
            else
              var p := c.payments[e.reference];
              if p.status.Succeeded? || p.providerEventId == Some(e.eventId)
                 || (e.succeeded && (p.status.Failed? || p.status.Refunded?))
              then result == CustomerResult(c, EventDuplicate)
              else if exists r :: r in c.payments && c.payments[r].providerEventId == Some(e.eventId) then
                result == CustomerResult(c, Rejected(UniqueViolation))
              else
                && result.reply == EventApplied && e.reference in result.customers.payments
                && var q := result.customers.payments[e.reference];
                   && result.customers.payments == c.payments[e.reference := q]
                   && q.userId == p.userId && q.paymentMethod == p.paymentMethod && q.amountCents == p.amountCents
                   && q.currency == p.currency && q.proofSubmittedAt == p.proofSubmittedAt
                   && q.providerEventId == Some(e.eventId) && q.providerReference == e.providerReference
                   && (e.succeeded ==>
                         q.status.Succeeded? && q.paidAt == Some(e.paidAt) && q.failureReason == p.failureReason)
                   && (!e.succeeded ==>
                         && q.status.Failed? && q.paidAt == p.paidAt
                         && q.failureReason == Some("reported_failed_by_provider")
                         && result.customers.subscriptions == c.subscriptions)
  {
    hide Extend;
  }

  predicate CustomerEventTaken(payments: map<Reference, CustomerPayment>, eventId: EventId) {
    exists r :: r in payments && payments[r].providerEventId == Some(eventId)
  }

  function CustomerPeriod(c: Customers, userId: UserId): Option<Period> {
    if userId in c.subscriptions then Some(c.subscriptions[userId]) else None
  }

  function ApplyCustomerPaymentEvent(c: Customers, e: PaymentEvent, now: int): CustomerResult {
    if e.reference !in c.payments then CustomerResult(c, Rejected(NotFound))
    else
      var p := c.payments[e.reference];
      if p.providerEventId == Some(e.eventId) || p.status.Succeeded? then CustomerResult(c, EventDuplicate)
      else if !e.succeeded then
        if CustomerEventTaken(c.payments, e.eventId) then CustomerResult(c, Rejected(UniqueViolation))
        else
          var failed := p.(status := Failed, providerEventId := Some(e.eventId),
                           providerReference := e.providerReference,
                           failureReason := Some("reported_failed_by_provider"));
          CustomerResult(c.(payments := c.payments[e.reference := failed]), EventApplied)
      else if !p.status.Open() then CustomerResult(c, EventDuplicate)
      else if CustomerEventTaken(c.payments, e.eventId) then CustomerResult(c, Rejected(UniqueViolation))
      else
        var existing := CustomerPeriod(c, p.userId);
        var period := Extend(existing, now, Monthly);
        var paid := p.(status := Succeeded, providerEventId := Some(e.eventId),
                       providerReference := e.providerReference, paidAt := Some(e.paidAt));
        CustomerResult(
          c.(payments := c.payments[e.reference := paid],
             subscriptions := c.subscriptions[p.userId := period],
             months := c.months + [MonthBought(p.userId, e.reference, now, existing, period)]),
          EventApplied)
  }

  datatype CustomerStep =
    | CustomerCheckout(reference: Reference, userId: UserId, paymentMethod: PaymentMethod,
                       session: Result<Option<string>, string>)
    | CustomerProof(userId: UserId, reference: Reference, uploadOk: bool, now: int)
    | CustomerTrial(userId: UserId, now: int)
    | CustomerWebhook(event: PaymentEvent, now: int)

  function DoCustomer(c: Customers, step: CustomerStep): CustomerResult {
    match step
    case CustomerCheckout(reference, userId, paymentMethod, session) =>
      StartCustomerCheckout(c, reference, userId, paymentMethod, session)
    case CustomerProof(userId, reference, uploadOk, now) => SubmitCustomerProof(c, userId, reference, uploadOk, now)
    case CustomerTrial(userId, now) => AttachCustomerTrial(c, userId, now)
    case CustomerWebhook(event, now) => ApplyCustomerPaymentEvent(c, event, now)
  }

  function RunCustomers(c: Customers, steps: seq<CustomerStep>): Customers
    decreases |steps|
  {
    if steps == [] then c else RunCustomers(DoCustomer(c, steps[0]).customers, steps[1..])
  }

  /* ---------------------------------------------------------------------- */
  /* Invariant                                                              */
  /* ---------------------------------------------------------------------- */

  ghost function PaidBy(payments: map<Reference, CustomerPayment>, userId: UserId): set<Reference> {
    set r | r in payments && payments[r].status.Succeeded? && payments[r].userId == userId
  }

  function MonthsOf(months: seq<MonthBought>, userId: UserId): nat {
    if months == [] then 0
    else
      var n := |months| - 1;
      MonthsOf(months[..n], userId) + (if months[n].userId == userId then 1 else 0)
  }

  predicate PaymentOk(p: CustomerPayment) {
    && p.amountCents == PRICE_CENTS
    && !p.status.Refunded?
    && (p.status.Open() ==> p.providerEventId.None? && p.paidAt.None?)
    && (p.status.Succeeded? ==> p.providerEventId.Some? && p.paidAt.Some?)
  }

  predicate RowsOk(payments: map<Reference, CustomerPayment>) {
    forall r :: r in payments ==> PaymentOk(payments[r])
  }

  predicate EventsDistinct(payments: map<Reference, CustomerPayment>) {
    forall r, s | r in payments && s in payments && payments[r].providerEventId.Some? ::
      payments[r].providerEventId == payments[s].providerEventId ==> r == s
  }

  /** Every success is a distinct event and bought exactly one month. */
  ghost predicate CustomersInv(c: Customers) {
    && RowsOk(c.payments)
    && EventsDistinct(c.payments)
    && (forall u: UserId :: |PaidBy(c.payments, u)| == MonthsOf(c.months, u))
  }

  lemma NoCustomersInv()
    ensures CustomersInv(NO_CUSTOMERS)
  {
    assert forall u :: PaidBy(NO_CUSTOMERS.payments, u) == {};
  }

  /** Writing a row adds one to its user's paid rows if that row becomes paid, and changes no other count. */
  lemma PaidByStep(payments: map<Reference, CustomerPayment>, r: Reference, p: CustomerPayment, u: UserId)
    requires r in payments ==> !payments[r].status.Succeeded? && payments[r].userId == p.userId
    ensures |PaidBy(payments[r := p], u)|
            == |PaidBy(payments, u)| + (if p.status.Succeeded? && p.userId == u then 1 else 0)
  {
    assert r !in PaidBy(payments, u);
    if p.status.Succeeded? && p.userId == u {
      assert PaidBy(payments[r := p], u) == PaidBy(payments, u) + {r};
    } else {
      assert PaidBy(payments[r := p], u) == PaidBy(payments, u);
    }
  }

  lemma CountsStep(c: Customers, step: CustomerStep, u: UserId)
    requires CustomersInv(c)
    ensures var d := DoCustomer(c, step).customers; |PaidBy(d.payments, u)| == MonthsOf(d.months, u)
  {
    hide Extend, PaidBy;
    var d := DoCustomer(c, step).customers;
    if d.payments != c.payments {
      var r := if step.CustomerWebhook? then step.event.reference else step.reference;
      assert d.payments == c.payments[r := d.payments[r]];
      PaidByStep(c.payments, r, d.payments[r], u);
      assert d.months != c.months ==> d.months[..|c.months|] == c.months;
    }
  }

  lemma CustomerRowsStep(c: Customers, step: CustomerStep)
    requires RowsOk(c.payments)
    ensures RowsOk(DoCustomer(c, step).customers.payments)
  {
    hide Extend, Take;
  }

  lemma CustomerEventsStep(c: Customers, step: CustomerStep)
    requires EventsDistinct(c.payments)
    ensures EventsDistinct(DoCustomer(c, step).customers.payments)
  {
    hide Extend, Take;
  }

  lemma DoCustomerKeepsInv(c: Customers, step: CustomerStep)
    requires CustomersInv(c)
    ensures CustomersInv(DoCustomer(c, step).customers)
  {
    hide DoCustomer, PaidBy, MonthsOf, PaymentOk;
    CustomerRowsStep(c, step);
    CustomerEventsStep(c, step);
    forall u: UserId
      ensures |PaidBy(DoCustomer(c, step).customers.payments, u)| == MonthsOf(DoCustomer(c, step).customers.months, u)
    {
      CountsStep(c, step, u);
    }
  }

  lemma {:induction false} RunCustomersKeepsInv(c: Customers, steps: seq<CustomerStep>)
    requires CustomersInv(c)
    ensures CustomersInv(RunCustomers(c, steps))
    decreases |steps|
  {
    hide CustomersInv, DoCustomer;
    if steps == [] {
    } else {
      DoCustomerKeepsInv(c, steps[0]);
      RunCustomersKeepsInv(DoCustomer(c, steps[0]).customers, steps[1..]);
    }
  }

  /* ---------------------------------------------------------------------- */
  /* Paid time                                                              */
  /* ---------------------------------------------------------------------- */

  predicate CustomerPays(c: Customers, step: CustomerStep, u: UserId) {
    && step.CustomerWebhook? && step.event.succeeded && step.event.reference in c.payments
    && c.payments[step.event.reference].status.Open() && c.payments[step.event.reference].userId == u
    && DoCustomer(c, step).reply.EventApplied?
  }

  /** A customer's period starts with the thirty-day trial or a payment, and changes only by a payment. */
  lemma CustomerPeriodStep(c: Customers, step: CustomerStep, u: UserId)
    requires CustomersInv(c)
    ensures var d := DoCustomer(c, step).customers;
            && CustomerPeriod(d, u)
               == (if CustomerPays(c, step, u) then Some(Extend(CustomerPeriod(c, u), step.now, Monthly))
                   else if step.CustomerTrial? && step.userId == u && u !in c.subscriptions
                   then Some(Period(Trialing, step.now, step.now + 30 * MS_PER_DAY, false))
                   else CustomerPeriod(c, u))
            && MonthsOf(d.months, u) == MonthsOf(c.months, u) + (if CustomerPays(c, step, u) then 1 else 0)
  {
    hide Extend;
    var d := DoCustomer(c, step).customers;
    assert d.months != c.months ==> d.months[..|c.months|] == c.months;
  }

  lemma CustomerEndStep(c: Customers, step: CustomerStep, u: UserId)
    requires CustomersInv(c) && u in c.subscriptions
    ensures var d := DoCustomer(c, step).customers;
            && u in d.subscriptions && MonthsOf(d.months, u) >= MonthsOf(c.months, u)
            && d.subscriptions[u].end
               >= c.subscriptions[u].end + 28 * MS_PER_DAY * (MonthsOf(d.months, u) - MonthsOf(c.months, u))
  {
    hide CustomersInv, DoCustomer, MonthsOf, Extend;
    CustomerPeriodStep(c, step, u);
    if CustomerPays(c, step, u) {
      ExtendNeverLoses(CustomerPeriod(c, u), step.now, Monthly);
    }
  }

  /** Over any run every month bought adds at least 28 days, and none is ever lost. */
  lemma {:induction false} CustomerTimeNeverLost(c: Customers, steps: seq<CustomerStep>, u: UserId)
    requires CustomersInv(c) && u in c.subscriptions
    ensures var d := RunCustomers(c, steps);
            && u in d.subscriptions && MonthsOf(d.months, u) >= MonthsOf(c.months, u)
            && d.subscriptions[u].end
               >= c.subscriptions[u].end + 28 * MS_PER_DAY * (MonthsOf(d.months, u) - MonthsOf(c.months, u))
    decreases |steps|
  {
    hide CustomersInv, DoCustomer, MonthsOf;
    if steps == [] {
    } else {
      CustomerEndStep(c, steps[0], u);
      DoCustomerKeepsInv(c, steps[0]);
      CustomerTimeNeverLost(DoCustomer(c, steps[0]).customers, steps[1..], u);
    }
  }

  /** Every payment of the run arrives before the customer's period is over. */
  predicate PaysEarly(c: Customers, steps: seq<CustomerStep>, u: UserId)
    decreases |steps|
  {
    steps != [] ==>
      && (CustomerPays(c, steps[0], u) ==> StillValid(CustomerPeriod(c, u), steps[0].now))
      && PaysEarly(DoCustomer(c, steps[0]).customers, steps[1..], u)
  }

  /** n months paid early move the end by n calendar months, and the customer is operational until then. */
  lemma {:induction false} EarlyMonthsIterate(c: Customers, steps: seq<CustomerStep>, u: UserId)
    requires CustomersInv(c) && u in c.subscriptions && PaysEarly(c, steps, u)
    ensures var d := RunCustomers(c, steps);
            var n := MonthsOf(d.months, u) - MonthsOf(c.months, u);
            && u in d.subscriptions && n >= 0
            && d.subscriptions[u].end == AddIntervals(c.subscriptions[u].end, Monthly, n)
            && c.subscriptions[u].end + 28 * n * MS_PER_DAY <= d.subscriptions[u].end
            && d.subscriptions[u].end <= c.subscriptions[u].end + 31 * n * MS_PER_DAY
            && d.subscriptions[u].start == c.subscriptions[u].start
            && (c.subscriptions[u].status in {Active, Trialing} ==>
                  forall t :: t < d.subscriptions[u].end <==> IsOperational(CustomerPeriod(d, u), t))
    decreases |steps|
  {
    hide CustomersInv, DoCustomer, MonthsOf, CustomerPays, AddInterval;
    var d := RunCustomers(c, steps);
    if steps == [] {
    } else {
      var next := DoCustomer(c, steps[0]).customers;
      CustomerPeriodStep(c, steps[0], u);
      DoCustomerKeepsInv(c, steps[0]);
      EarlyMonthsIterate(next, steps[1..], u);
      AddIntervalFirst(c.subscriptions[u].end, MonthsOf(d.months, u) - MonthsOf(next.months, u));
    }
    MonthlyIterateBounds(c.subscriptions[u].end, MonthsOf(d.months, u) - MonthsOf(c.months, u));
  }
}

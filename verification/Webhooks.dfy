/**
 The two ledgers behind one webhook (handlePaymentWebhook): routing, and what the first event for a reference decides.
 */
module Webhooks {
  import opened Wrappers
  import opened Text
  import opened BillingRules
  import opened PaymentProtocol
  import opened BillingLedger
  import opened BillingInvariant
  import opened BillingTheorems
  import opened CustomerLedger

  datatype System = System(billing: Ledger, customers: Customers)

  const INITIAL: System := System(EMPTY, NO_CUSTOMERS)

  datatype SystemStep =
    | OfBilling(step: Step)
    | OfCustomers(customerStep: CustomerStep)
    | Deliver(event: PaymentEvent, now: int, config: Config)

  datatype SystemResult = SystemResult(system: System, reply: Reply)

  /** A unique violation counts as a duplicate only when the organization row already carries the event. */
  function CatchUniqueViolation(s: System, e: PaymentEvent, reply: Reply): Reply {
    if reply == Rejected(UniqueViolation) && e.reference in s.billing.transactions
       && s.billing.transactions[e.reference].providerEventId == Some(e.eventId)
    then EventDuplicate else reply
  }

  /**
   A verified event goes to the customer ledger if that has the reference, and to the organization ledger otherwise.
   */
  ghost function HandlePaymentWebhook(s: System, e: PaymentEvent, now: int, config: Config,
                                      sign: Signer): SystemResult {
    if e.reference in s.customers.payments then
      var result := ApplyCustomerPaymentEvent(s.customers, e, now);
      SystemResult(s.(customers := result.customers), CatchUniqueViolation(s, e, result.reply))
    else
      var result := ApplyPaymentEvent(s.billing, e, now, config, sign);
      SystemResult(s.(billing := result.ledger), CatchUniqueViolation(s, e, result.reply))
  }

  ghost function DoSystem(s: System, step: SystemStep, sign: Signer): SystemResult {
    match step
    case OfBilling(b) => var result := Do(s.billing, b, sign); SystemResult(s.(billing := result.ledger), result.reply)
    case OfCustomers(c) =>
      var result := DoCustomer(s.customers, c); SystemResult(s.(customers := result.customers), result.reply)
    case Deliver(e, now, config) => HandlePaymentWebhook(s, e, now, config, sign)
  }

  ghost function RunSystem(s: System, steps: seq<SystemStep>, sign: Signer): System
    decreases |steps|
  {
    if steps == [] then s else RunSystem(DoSystem(s, steps[0], sign).system, steps[1..], sign)
  }

  /**
   Events arrive through the webhook only, and a checkout draws a random reference that the other ledger does not
   have.
   */
  predicate Admissible(s: System, step: SystemStep) {
    match step
    case OfBilling(b) => !b.Webhook? && (b.Checkout? ==> b.reference !in s.customers.payments)
    case OfCustomers(c) => !c.CustomerWebhook? && (c.CustomerCheckout? ==> c.reference !in s.billing.transactions)
    case Deliver(_, _, _) => true
  }

  ghost predicate AdmissibleRun(s: System, steps: seq<SystemStep>, sign: Signer)
    decreases |steps|
  {
    steps != [] ==>
      && Admissible(s, steps[0])
      && AdmissibleRun(DoSystem(s, steps[0], sign).system, steps[1..], sign)
  }

  ghost predicate SystemInv(s: System, sign: Signer) {
    && Inv(s.billing, sign)
    && CustomersInv(s.customers)
    && s.billing.transactions.Keys !! s.customers.payments.Keys
  }

  /** No row is ever removed, and only a checkout adds one. */
  lemma RowsStay(l: Ledger, step: Step, sign: Signer)
    ensures Do(l, step, sign).ledger.transactions.Keys
            == l.transactions.Keys + (if step.Checkout? && step.reference in Do(l, step, sign).ledger.transactions
                                      then {step.reference} else {})
  {
    hide AddInterval, Settle, ApplyPaymentEvent, FailedRow, Take;
    if step.Webhook? {
      WebhookCases(l, step.event, step.now, step.config, sign);
      if step.event.reference in l.transactions { SettleRow(l, step.event, step.now, step.config, sign); }
    }
  }

  lemma CustomerRowsStay(c: Customers, step: CustomerStep)
    ensures DoCustomer(c, step).customers.payments.Keys
            == c.payments.Keys + (if step.CustomerCheckout? then {step.reference} else {})
  {
    hide Extend;
  }

  lemma SystemStepKeepsInv(s: System, step: SystemStep, sign: Signer)
    requires SystemInv(s, sign) && Admissible(s, step)
    ensures SystemInv(DoSystem(s, step, sign).system, sign)
  {
    hide Inv, CustomersInv, ApplyPaymentEvent, ApplyCustomerPaymentEvent;
    match step
    case OfBilling(b) =>
      DoKeepsInv(s.billing, b, sign);
      RowsStay(s.billing, b, sign);
    case OfCustomers(c) =>
      DoCustomerKeepsInv(s.customers, c);
      CustomerRowsStay(s.customers, c);
    case Deliver(e, now, config) =>
      DoKeepsInv(s.billing, Webhook(e, now, config), sign);
      RowsStay(s.billing, Webhook(e, now, config), sign);
      DoCustomerKeepsInv(s.customers, CustomerWebhook(e, now));
      CustomerRowsStay(s.customers, CustomerWebhook(e, now));
  }

  lemma {:induction false} SystemKeepsInv(s: System, steps: seq<SystemStep>, sign: Signer)
    requires SystemInv(s, sign) && AdmissibleRun(s, steps, sign)
    ensures SystemInv(RunSystem(s, steps, sign), sign)
    decreases |steps|
  {
    hide SystemInv, DoSystem, Admissible;
    if steps == [] {
    } else {
      SystemStepKeepsInv(s, steps[0], sign);
      SystemKeepsInv(DoSystem(s, steps[0], sign).system, steps[1..], sign);
    }
  }

  lemma InitialSystem(sign: Signer)
    ensures SystemInv(INITIAL, sign)
  {
    hide Inv, CustomersInv;
    EmptyLedger(sign);
    NoCustomersInv();
  }

  /* ---------------------------------------------------------------------- */
  /* One ledger at a time                                                   */
  /* ---------------------------------------------------------------------- */

  /** What a step is to the organization ledger: a step of it, or nothing. */
  function BillingPart(s: System, step: SystemStep): seq<Step> {
    match step
    case OfBilling(b) => [b]
    case OfCustomers(_) => []
    case Deliver(e, now, config) => if e.reference in s.customers.payments then [] else [Webhook(e, now, config)]
  }

  function CustomerPart(s: System, step: SystemStep): seq<CustomerStep> {
    match step
    case OfBilling(_) => []
    case OfCustomers(c) => [c]
    case Deliver(e, now, _) => if e.reference in s.customers.payments then [CustomerWebhook(e, now)] else []
  }

  ghost function BillingParts(s: System, steps: seq<SystemStep>, sign: Signer): seq<Step>
    decreases |steps|
  {
    if steps == [] then []
    else BillingPart(s, steps[0]) + BillingParts(DoSystem(s, steps[0], sign).system, steps[1..], sign)
  }

  ghost function CustomerParts(s: System, steps: seq<SystemStep>, sign: Signer): seq<CustomerStep>
    decreases |steps|
  {
    if steps == [] then []
    else CustomerPart(s, steps[0]) + CustomerParts(DoSystem(s, steps[0], sign).system, steps[1..], sign)
  }

  lemma StepHasOneLedger(s: System, step: SystemStep, sign: Signer, rest: seq<Step>, customerRest: seq<CustomerStep>)
    ensures |BillingPart(s, step)| + |CustomerPart(s, step)| == 1
    ensures Run(s.billing, BillingPart(s, step) + rest, sign) == Run(DoSystem(s, step, sign).system.billing, rest, sign)
    ensures RunCustomers(s.customers, CustomerPart(s, step) + customerRest)
            == RunCustomers(DoSystem(s, step, sign).system.customers, customerRest)
  {
    hide ApplyPaymentEvent, ApplyCustomerPaymentEvent, StartCheckout, SubmitProof, StartCustomerCheckout,
         SubmitCustomerProof, AssignPlan, AttachTrial, AttachCustomerTrial;
    var b, c := BillingPart(s, step), CustomerPart(s, step);
    if b == [] {
      assert b + rest == rest && (c + customerRest)[1..] == customerRest;
    } else {
      assert c + customerRest == customerRest && (b + rest)[1..] == rest;
    }
  }

  /**
   The ledgers are independent: every step of a run is a step of exactly one of them, and each ends as its own steps
   leave it. So what holds in every reachable state of a ledger holds in every reachable state of the system.
   */
  lemma {:induction false} LedgersAreIndependent(s: System, steps: seq<SystemStep>, sign: Signer)
    ensures RunSystem(s, steps, sign) == System(Run(s.billing, BillingParts(s, steps, sign), sign),
                                                RunCustomers(s.customers, CustomerParts(s, steps, sign)))
    ensures |BillingParts(s, steps, sign)| + |CustomerParts(s, steps, sign)| == |steps|
    decreases |steps|
  {
    hide DoSystem, BillingPart, CustomerPart, Do, DoCustomer;
    if steps == [] {
    } else {
      var next := DoSystem(s, steps[0], sign).system;
      LedgersAreIndependent(next, steps[1..], sign);
      StepHasOneLedger(s, steps[0], sign, BillingParts(next, steps[1..], sign), CustomerParts(next, steps[1..], sign));
    }
  }

  /** An event leaves one of the ledgers exactly as it was, and a rejected event leaves both. */
  lemma WebhookTouchesOneLedger(s: System, e: PaymentEvent, now: int, config: Config, sign: Signer)
    ensures var after := HandlePaymentWebhook(s, e, now, config, sign).system;
            if e.reference in s.customers.payments then after.billing == s.billing else after.customers == s.customers
    ensures HandlePaymentWebhook(s, e, now, config, sign).reply.Rejected? ==>
              HandlePaymentWebhook(s, e, now, config, sign).system == s
  {
    hide ApplyPaymentEvent, Extend;
    if e.reference !in s.customers.payments && ApplyPaymentEvent(s.billing, e, now, config, sign).reply.Rejected? {
      RejectedStepsAbort(s.billing, Webhook(e, now, config), sign);
    }
  }

  /** When webhooks run one after another, the handler for unique violations never turns an error into a success. */
  lemma CatchIsIdle(s: System, e: PaymentEvent, now: int, config: Config, sign: Signer)
    requires SystemInv(s, sign)
    ensures HandlePaymentWebhook(s, e, now, config, sign).reply
            == if e.reference in s.customers.payments then ApplyCustomerPaymentEvent(s.customers, e, now).reply
               else ApplyPaymentEvent(s.billing, e, now, config, sign).reply
  {
    hide Settle, Extend, Inv, CustomersInv;
  }

  /* ---------------------------------------------------------------------- */
  /* The first event decides                                                */
  /* ---------------------------------------------------------------------- */

  function Decided(e: PaymentEvent): TransactionStatus {
    if e.succeeded then Succeeded else Failed
  }

  /** What a result leaves of the row t: paid rows are frozen, failed rows stay failed, an event decides an open row. */
  predicate RowFollows(t: Transaction, result: StepResult, r: Reference, decided: Option<TransactionStatus>) {
    && r in result.ledger.transactions
    && var u := result.ledger.transactions[r];
    && (t.status.Succeeded? ==> u == t)
    && (t.status.Failed? ==> u.status.Failed?)
    && (t.status.Open() ==> if decided.Some? then Some(u.status) == decided else u.status.Open())
  }

  lemma WebhookRow(l: Ledger, e: PaymentEvent, now: int, config: Config, sign: Signer, r: Reference)
    requires r in l.transactions && RowOk(l.transactions[r])
    ensures var result := ApplyPaymentEvent(l, e, now, config, sign);
            RowFollows(l.transactions[r], result, r,
                       if e.reference == r && !result.reply.Rejected? then Some(Decided(e)) else None)
  {
    hide Settle, ApplyPaymentEvent;
    WebhookCases(l, e, now, config, sign);
    if e.reference in l.transactions {
      SettleRow(l, e, now, config, sign);
    }
  }

  lemma BillingRowStep(l: Ledger, step: Step, sign: Signer, r: Reference)
    requires Inv(l, sign) && r in l.transactions
    ensures var result := Do(l, step, sign);
            RowFollows(l.transactions[r], result, r,
                       if step.Webhook? && step.event.reference == r && !result.reply.Rejected?
                       then Some(Decided(step.event)) else None)
  {
    assert RowOk(l.transactions[r]);
    hide Inv, RowFollows, ApplyPaymentEvent, StartCheckout, SubmitProof, AssignPlan, AttachTrial;
    match step
    case Webhook(e, now, config) => WebhookRow(l, e, now, config, sign, r);
    case Checkout(_, _, _, _, _, _) => CheckoutRow(l, step, sign, r);
    case Proof(_, _, _, _) => ProofRow(l, step, sign, r);
    case _ => OtherRow(l, step, sign, r);
  }

  /** The steps that write no transaction. */
  lemma OtherRow(l: Ledger, step: Step, sign: Signer, r: Reference)
    requires r in l.transactions && (step.Assign? || step.AttachTrialPlan? || step.Catalogue?)
    ensures RowFollows(l.transactions[r], Do(l, step, sign), r, None)
  {
    hide AddInterval;
  }

  lemma CheckoutRow(l: Ledger, step: Step, sign: Signer, r: Reference)
    requires r in l.transactions && step.Checkout?
    ensures RowFollows(l.transactions[r], Do(l, step, sign), r, None)
  {
  }

  lemma ProofRow(l: Ledger, step: Step, sign: Signer, r: Reference)
    requires r in l.transactions && step.Proof?
    ensures RowFollows(l.transactions[r], Do(l, step, sign), r, None)
  {
  }

  lemma SettleRow(l: Ledger, e: PaymentEvent, now: int, config: Config, sign: Signer)
    requires e.reference in l.transactions
    ensures var result := Settle(l, e, now, config, sign);
            && (result.reply.Rejected? ==> result.ledger == l)
            && (!result.reply.Rejected? ==>
                  && result.reply.EventApplied?
                  && result.ledger.transactions.Keys == l.transactions.Keys
                  && result.ledger.transactions[e.reference].status.Succeeded?)
            && forall q :: q in l.transactions && q != e.reference ==>
                 q in result.ledger.transactions && result.ledger.transactions[q] == l.transactions[q]
  {
    hide AddInterval, AllocateInvoiceNumber, IssueInvoice, PreviousInvoiceHash;
  }

  lemma CustomerRowStep(c: Customers, step: CustomerStep, r: Reference)
    requires CustomersInv(c) && r in c.payments
    ensures var d := DoCustomer(c, step);
            && r in d.customers.payments
            && (c.payments[r].status.Succeeded? ==> d.customers.payments[r] == c.payments[r])
            && (c.payments[r].status.Failed? ==> d.customers.payments[r].status.Failed?)
            && (c.payments[r].status.Open() ==>
                  if step.CustomerWebhook? && step.event.reference == r && !d.reply.Rejected?
                  then d.customers.payments[r].status == Decided(step.event)
                  else d.customers.payments[r].status.Open())
  {
    assert PaymentOk(c.payments[r]);
    hide CustomersInv, Extend;
  }

  function StatusOf(s: System, r: Reference): Option<TransactionStatus> {
    if r in s.customers.payments then Some(s.customers.payments[r].status)
    else if r in s.billing.transactions then Some(s.billing.transactions[r].status)
    else None
  }

  /** The step delivers an event for `r`, and the database transaction does not abort. */
  ghost predicate Decides(s: System, step: SystemStep, sign: Signer, r: Reference) {
    step.Deliver? && step.event.reference == r && !DoSystem(s, step, sign).reply.Rejected?
  }

  lemma StatusStep(s: System, step: SystemStep, sign: Signer, r: Reference)
    requires SystemInv(s, sign) && Admissible(s, step) && StatusOf(s, r).Some?
    ensures var before, after := StatusOf(s, r).value, StatusOf(DoSystem(s, step, sign).system, r);
            && after.Some?
            && (before.Succeeded? || before.Failed? ==> after.value == before)
            && (before.Open() ==>
                  if Decides(s, step, sign, r) then after.value == Decided(step.event) else after.value.Open())
  {
    hide Inv, CustomersInv, ApplyPaymentEvent, ApplyCustomerPaymentEvent;
    match step
    case OfBilling(b) =>
      RowsStay(s.billing, b, sign);
      if r in s.billing.transactions { BillingRowStep(s.billing, b, sign, r); }
    case OfCustomers(c) =>
      CustomerRowsStay(s.customers, c);
      if r in s.customers.payments { CustomerRowStep(s.customers, c, r); }
    case Deliver(e, now, config) =>
      CatchIsIdle(s, e, now, config, sign);
      CustomerRowsStay(s.customers, CustomerWebhook(e, now));
      if r in s.customers.payments { CustomerRowStep(s.customers, CustomerWebhook(e, now), r); }
      if r in s.billing.transactions { BillingRowStep(s.billing, Webhook(e, now, config), sign, r); }
  }

  /** The first event of the run that is delivered for `r` without aborting. */
  ghost function FirstDecision(s: System, steps: seq<SystemStep>, sign: Signer, r: Reference): Option<PaymentEvent>
    decreases |steps|
  {
    if steps == [] then None
    else if Decides(s, steps[0], sign, r) then Some(steps[0].event)
    else FirstDecision(DoSystem(s, steps[0], sign).system, steps[1..], sign, r)
  }

  lemma {:induction false} ClosedStaysClosed(s: System, steps: seq<SystemStep>, sign: Signer, r: Reference)
    requires SystemInv(s, sign) && AdmissibleRun(s, steps, sign)
    requires StatusOf(s, r) == Some(Succeeded) || StatusOf(s, r) == Some(Failed)
    ensures StatusOf(RunSystem(s, steps, sign), r) == StatusOf(s, r)
    decreases |steps|
  {
    hide SystemInv, DoSystem, Admissible, StatusOf;
    if steps == [] {
    } else {
      SystemStepKeepsInv(s, steps[0], sign);
      StatusStep(s, steps[0], sign, r);
      ClosedStaysClosed(DoSystem(s, steps[0], sign).system, steps[1..], sign, r);
    }
  }

  /**
   However webhooks, replays, proofs and other steps interleave, the first event delivered for an open reference
   decides its status for good, and without one it stays open.
   */
  lemma {:induction false} FirstEventDecides(s: System, steps: seq<SystemStep>, sign: Signer, r: Reference)
    requires SystemInv(s, sign) && AdmissibleRun(s, steps, sign)
    requires StatusOf(s, r).Some? && StatusOf(s, r).value.Open()
    ensures var final := StatusOf(RunSystem(s, steps, sign), r);
            match FirstDecision(s, steps, sign, r)
            case Some(e) => final == Some(Decided(e))
            case None => final.Some? && final.value.Open()
    decreases |steps|
  {
    hide SystemInv, DoSystem, Admissible, StatusOf;
    if steps == [] {
    } else {
      var next := DoSystem(s, steps[0], sign).system;
      SystemStepKeepsInv(s, steps[0], sign);
      StatusStep(s, steps[0], sign, r);
      if Decides(s, steps[0], sign, r) {
        ClosedStaysClosed(next, steps[1..], sign, r);
      } else {
        FirstEventDecides(next, steps[1..], sign, r);
      }
    }
  }

  /**
   From the empty tables on: in every reachable state both invariants hold and no reference is in both ledgers, a
   decided reference keeps its status, and an open one gets the status of the first event delivered for it.
   */
  lemma ReachableSystem(before: seq<SystemStep>, steps: seq<SystemStep>, sign: Signer, r: Reference)
    requires AdmissibleRun(INITIAL, before, sign)
    requires AdmissibleRun(RunSystem(INITIAL, before, sign), steps, sign)
    ensures var s := RunSystem(INITIAL, before, sign);
            var final := RunSystem(s, steps, sign);
            && SystemInv(final, sign)
            && (StatusOf(s, r) == Some(Succeeded) || StatusOf(s, r) == Some(Failed) ==>
                  StatusOf(final, r) == StatusOf(s, r))
            && (StatusOf(s, r).Some? && StatusOf(s, r).value.Open() ==>
                  match FirstDecision(s, steps, sign, r)
                  case Some(e) => StatusOf(final, r) == Some(Decided(e))
                  case None => StatusOf(final, r).Some? && StatusOf(final, r).value.Open())
  {
    hide SystemInv, RunSystem, StatusOf, AdmissibleRun, FirstDecision;
    InitialSystem(sign);
    SystemKeepsInv(INITIAL, before, sign);
    var s := RunSystem(INITIAL, before, sign);
    SystemKeepsInv(s, steps, sign);
    if StatusOf(s, r) == Some(Succeeded) || StatusOf(s, r) == Some(Failed) {
      ClosedStaysClosed(s, steps, sign, r);
    } else if StatusOf(s, r).Some? && StatusOf(s, r).value.Open() {
      FirstEventDecides(s, steps, sign, r);
    }
  }

  lemma InertForBilling(l: Ledger, e: PaymentEvent, now: int, config: Config, sign: Signer)
    requires e.reference in l.transactions ==> !l.transactions[e.reference].status.Open()
    ensures var m := ApplyPaymentEvent(l, e, now, config, sign).ledger;
            && m.(transactions := map[]) == l.(transactions := map[])
            && forall q :: q in l.transactions && q != e.reference ==>
                 q in m.transactions && m.transactions[q] == l.transactions[q]
  {
    hide Settle, ApplyPaymentEvent;
    WebhookCases(l, e, now, config, sign);
  }

  lemma InertForCustomers(c: Customers, e: PaymentEvent, now: int)
    requires e.reference in c.payments ==> !c.payments[e.reference].status.Open()
    ensures var d := ApplyCustomerPaymentEvent(c, e, now).customers;
            && d.(payments := map[]) == c.(payments := map[])
            && forall q :: q in c.payments && q != e.reference ==> q in d.payments && d.payments[q] == c.payments[q]
  {
    hide Extend;
  }

  /** An event for a decided reference takes no number, buys no time and touches no other row of either ledger. */
  lemma LaterEventsAreInert(s: System, e: PaymentEvent, now: int, config: Config, sign: Signer)
    requires SystemInv(s, sign)
    requires StatusOf(s, e.reference) == Some(Succeeded) || StatusOf(s, e.reference) == Some(Failed)
    ensures var after := HandlePaymentWebhook(s, e, now, config, sign).system;
            && after.billing.(transactions := map[]) == s.billing.(transactions := map[])
            && after.customers.(payments := map[]) == s.customers.(payments := map[])
            && (forall q :: q in s.billing.transactions && q != e.reference ==>
                  q in after.billing.transactions && after.billing.transactions[q] == s.billing.transactions[q])
            && (forall q :: q in s.customers.payments && q != e.reference ==>
                  q in after.customers.payments && after.customers.payments[q] == s.customers.payments[q])
  {
    hide ApplyPaymentEvent, ApplyCustomerPaymentEvent, Inv, CustomersInv;
    WebhookTouchesOneLedger(s, e, now, config, sign);
    if e.reference in s.customers.payments {
      InertForCustomers(s.customers, e, now);
    } else {
      InertForBilling(s.billing, e, now, config, sign);
    }
  }
}

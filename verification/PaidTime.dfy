/** Paid time over whole runs of the billing ledger: what webhook successes do to a subscription's end. */
module PaidTime {
  import opened Wrappers
  import opened Calendar
  import opened BillingRules
  import opened PaymentProtocol
  import opened BillingLedger
  import opened BillingInvariant
  import opened BillingTheorems

  /** The step pays some transaction of organization `o`. */
  ghost predicate PaysFor(l: Ledger, step: Step, sign: Signer, o: OrganizationId) {
    && step.Webhook?
    && Pays(l, step, sign, step.event.reference)
    && l.transactions[step.event.reference].organizationId == o
  }

  /** The interval of the plan being paid. */
  function PaidInterval(l: Ledger, step: Step): BillingInterval
    requires step.Webhook? && step.event.reference in l.transactions
  {
    var planId := l.transactions[step.event.reference].planId;
    if planId in l.plans then l.plans[planId].interval else Monthly
  }

  function SubscriptionOf(l: Ledger, o: OrganizationId): Option<Subscription> {
    if o in l.subscriptions then Some(l.subscriptions[o]) else None
  }

  /** An administrator assigns a plan that exists and is active to an organization that exists. */
  predicate Assigns(l: Ledger, step: Step, o: OrganizationId) {
    && step.Assign? && step.organizationId == o
    && o in l.organizations && step.planId in l.plans && l.plans[step.planId].active
  }

  /** The first trial: there is a trial plan, and no subscription of any kind yet. */
  predicate StartsTrial(l: Ledger, step: Step, o: OrganizationId) {
    step.AttachTrialPlan? && step.organizationId == o && step.trialPlan.Some? && o !in l.subscriptions
  }

  /** The whole subscription after a step, plan and period; steps of other kinds or for others leave it as it is. */
  lemma SubscriptionStep(l: Ledger, step: Step, sign: Signer, o: OrganizationId)
    requires Inv(l, sign)
    ensures var before, after := SubscriptionOf(l, o), SubscriptionOf(Do(l, step, sign).ledger, o);
            if PaysFor(l, step, sign, o) then
              after == Some(Subscription(l.transactions[step.event.reference].planId,
                                         Extend(CurrentPeriod(l.subscriptions, o), step.now, PaidInterval(l, step))))
            else if Assigns(l, step, o) then
              after == Some(Subscription(step.planId,
                                         Period(Active, step.now,
                                                AddInterval(step.now, l.plans[step.planId].interval), false)))
            else if StartsTrial(l, step, o) then
              after == Some(Subscription(step.trialPlan.value,
                                         Period(Trialing, step.now, step.now + step.days * MS_PER_DAY, false)))
            else after == before
  {
    hide AddInterval, Inv, Extend;
    if step.Webhook? && Pays(l, step, sign, step.event.reference) {
      PaysShape(l, step, sign);
      hide Do, Pays;
    } else if step.Webhook? {
      WebhookTakesNone(l, step.event, step.now, step.config, sign);
      hide Do;
    } else {
      hide Settle, ApplyPaymentEvent;
    }
  }

  /** What an administrator is told; a trial is refused only for want of a trial plan. */
  lemma AssignmentReplies(l: Ledger, step: Step, sign: Signer)
    ensures step.Assign? ==>
              Do(l, step, sign).reply
              == if Assigns(l, step, step.organizationId) then PlanAssigned else Rejected(NotFound)
    ensures step.AttachTrialPlan? ==>
              Do(l, step, sign).reply == if step.trialPlan.Some? then TrialAttached else Rejected(NotFound)
  {
    hide AddInterval;
  }

  /** A period changes by being paid for, by an administrator's assignment, or by the first trial; nothing else. */
  lemma PeriodStep(l: Ledger, step: Step, sign: Signer, o: OrganizationId)
    requires Inv(l, sign)
    ensures var m := Do(l, step, sign).ledger;
            var before, after := CurrentPeriod(l.subscriptions, o), CurrentPeriod(m.subscriptions, o);
            if PaysFor(l, step, sign, o) then
              after == Some(Extend(before, step.now, PaidInterval(l, step)))
            else if Assigns(l, step, o) then
              after == Some(Period(Active, step.now, AddInterval(step.now, l.plans[step.planId].interval), false))
            else if StartsTrial(l, step, o) then
              after == Some(Period(Trialing, step.now, step.now + step.days * MS_PER_DAY, false))
            else after == before
    ensures ExtensionsOf(Do(l, step, sign).ledger.extensions, o)
            == ExtensionsOf(l.extensions, o) + (if PaysFor(l, step, sign, o) then 1 else 0)
  {
    hide AddInterval, Inv, Extend, Do, Pays;
    SubscriptionStep(l, step, sign, o);
    OnlyPaymentsTakeNumbers(l, step, sign);
    var m := Do(l, step, sign).ledger;
    assert m.extensions != l.extensions ==> m.extensions[..|l.extensions|] == l.extensions;
  }

  ghost predicate NoAssignment(steps: seq<Step>, o: OrganizationId) {
    forall i :: 0 <= i < |steps| ==> !(steps[i].Assign? && steps[i].organizationId == o)
  }

  lemma EndStep(l: Ledger, step: Step, sign: Signer, o: OrganizationId)
    requires Inv(l, sign) && o in l.subscriptions && !(step.Assign? && step.organizationId == o)
    ensures var m := Do(l, step, sign).ledger;
            && o in m.subscriptions
            && ExtensionsOf(m.extensions, o) >= ExtensionsOf(l.extensions, o)
            && m.subscriptions[o].period.end
               >= l.subscriptions[o].period.end
                  + 28 * MS_PER_DAY * (ExtensionsOf(m.extensions, o) - ExtensionsOf(l.extensions, o))
  {
    hide Inv, Do, Extend, ExtensionsOf, PaidInterval;
    PeriodStep(l, step, sign, o);
    if PaysFor(l, step, sign, o) {
      ExtendNeverLoses(CurrentPeriod(l.subscriptions, o), step.now, PaidInterval(l, step));
    }
  }

  /** Over any run without an administrator's assignment, every payment adds at least 28 days and none is ever lost. */
  lemma {:induction false} PaidTimeNeverLost(l: Ledger, steps: seq<Step>, sign: Signer, o: OrganizationId)
    requires Inv(l, sign) && NoAssignment(steps, o) && o in l.subscriptions
    ensures var m := Run(l, steps, sign);
            && o in m.subscriptions
            && ExtensionsOf(m.extensions, o) >= ExtensionsOf(l.extensions, o)
            && m.subscriptions[o].period.end
               >= l.subscriptions[o].period.end
                  + 28 * MS_PER_DAY * (ExtensionsOf(m.extensions, o) - ExtensionsOf(l.extensions, o))
    decreases |steps|
  {
    hide Inv, Do, ExtensionsOf;
    if steps == [] {
    } else {
      EndStep(l, steps[0], sign, o);
      DoKeepsInv(l, steps[0], sign);
      PaidTimeNeverLost(Do(l, steps[0], sign).ledger, steps[1..], sign, o);
    }
  }

  /** Every payment for `o` in the run buys a month and arrives before the period it extends is over. */
  ghost predicate RenewsEarly(l: Ledger, steps: seq<Step>, sign: Signer, o: OrganizationId)
    decreases |steps|
  {
    steps != [] ==>
      && (PaysFor(l, steps[0], sign, o) ==>
            && PaidInterval(l, steps[0]).Monthly?
            && StillValid(CurrentPeriod(l.subscriptions, o), steps[0].now))
      && RenewsEarly(Do(l, steps[0], sign).ledger, steps[1..], sign, o)
  }

  /**
   n early monthly renewals, interleaved with any other steps, move the end by exactly n calendar months: between 28
   and 31 days each. The organization can operate until then.
   */
  lemma {:induction false} EarlyRenewalsIterate(l: Ledger, steps: seq<Step>, sign: Signer, o: OrganizationId)
    requires Inv(l, sign) && NoAssignment(steps, o) && RenewsEarly(l, steps, sign, o)
    requires o in l.subscriptions
    ensures var m := Run(l, steps, sign);
            var n := ExtensionsOf(m.extensions, o) - ExtensionsOf(l.extensions, o);
            var start := l.subscriptions[o].period.end;
            && o in m.subscriptions && n >= 0
            && m.subscriptions[o].period.end == AddIntervals(start, Monthly, n)
            && start + 28 * n * MS_PER_DAY <= m.subscriptions[o].period.end <= start + 31 * n * MS_PER_DAY
            && m.subscriptions[o].period.start == l.subscriptions[o].period.start
            && (l.subscriptions[o].period.status in {Active, Trialing} ==>
                  forall t :: t < m.subscriptions[o].period.end
                              <==> IsOperational(CurrentPeriod(m.subscriptions, o), t))
    decreases |steps|
  {
    hide Inv, Do, ExtensionsOf, PaysFor, AddInterval;
    var m := Run(l, steps, sign);
    if steps == [] {
    } else {
      var next := Do(l, steps[0], sign).ledger;
      PeriodStep(l, steps[0], sign, o);
      DoKeepsInv(l, steps[0], sign);
      EarlyRenewalsIterate(next, steps[1..], sign, o);
      AddIntervalFirst(l.subscriptions[o].period.end, ExtensionsOf(m.extensions, o) - ExtensionsOf(next.extensions, o));
    }
    MonthlyIterateBounds(l.subscriptions[o].period.end, ExtensionsOf(m.extensions, o) - ExtensionsOf(l.extensions, o));
  }

  /**
   An administrator's assignment starts again from now. It takes paid time away exactly when more time is left than
   the interval of the assigned plan has days.
   */
  lemma AssignmentShortensIff(l: Ledger, o: OrganizationId, planId: PlanId, now: int)
    requires o in l.organizations && planId in l.plans && l.plans[planId].active && o in l.subscriptions
    ensures AssignPlan(l, o, planId, now).ledger.subscriptions[o].period.end < l.subscriptions[o].period.end
            <==> l.subscriptions[o].period.end - now > IntervalDays(now, l.plans[planId].interval) * MS_PER_DAY
  {
    hide AddInterval, CivilOf, DaysInMonth;
    MonthlyAddsDaysOfMonth(now);
    YearlyAddsLeapDay(now);
  }

  /** The days of the current month, or of the year that starts with it. */
  ghost function IntervalDays(now: int, interval: BillingInterval): int {
    var c := CivilOf(DayOf(now));
    match interval
    case Monthly => DaysInMonth(c.year, c.month)
    case Yearly => if exists y :: LeapDayInYearFrom(c, y) then 366 else 365
  }

  /** A claimed payment, step by step: the row, the period of the plan paid for, and nothing else of these tables. */
  lemma PaymentStep(l: Ledger, e: PaymentEvent, now: int, config: Config, sign: Signer) returns (paid: Transaction)
    requires Inv(l, sign) && e.succeeded
    requires e.reference in l.transactions && l.transactions[e.reference].status.Open()
    requires l.transactions[e.reference].planId in l.plans && !EventTaken(l.transactions, e.eventId)
    ensures var m := Do(l, Webhook(e, now, config), sign).ledger;
            var t := l.transactions[e.reference];
            var o := t.organizationId;
            && m.plans == l.plans && m.organizations == l.organizations
            && m.transactions == l.transactions[e.reference := paid]
            && paid.providerEventId == Some(e.eventId)
            && o in m.subscriptions
            && m.subscriptions[o].period == Extend(CurrentPeriod(l.subscriptions, o), now, l.plans[t.planId].interval)
  {
    assert RowOk(l.transactions[e.reference]);
    var key, n;
    paid, key, n := SettleShape(l, e, now, config, sign);
    hide Settle, Extend, Inv, PaidRow;
    assert Do(l, Webhook(e, now, config), sign) == Settle(l, e, now, config, sign);
    assert paid.organizationId == l.transactions[e.reference].organizationId by {
      SettledOrganization(l, e.reference, paid, key, n, sign);
    }
  }

  lemma SettledOrganization(l: Ledger, r: Reference, paid: Transaction, key: SeriesKey, n: nat, sign: Signer)
    requires PaidRow(l, r, paid, key, n, sign)
    ensures paid.organizationId == l.transactions[r].organizationId
  {
  }

  /** A monthly plan, an organization, two checkouts, and both paid at the same instant. */
  function TwoMonthsPaid(now: int, config: Config): seq<Step> {
    [Catalogue(map["plan" := MONTHLY_PLAN], map["org" := Organization(None)]),
     Checkout("A", "org", "plan", BankTransfer, "", Success(None)),
     Checkout("B", "org", "plan", BankTransfer, "", Success(None)),
     Webhook(PaymentEvent("1", true, "A", None, now), now, config),
     Webhook(PaymentEvent("2", true, "B", None, now), now, config)]
  }

  function PendingRow(plan: Plan): Transaction {
    Transaction("org", "plan", BankTransfer, Pending, plan.priceCents, plan.currency, None, None, None, None, None,
                None, None)
  }

  const MONTHLY_PLAN: Plan := Plan(Monthly, 500_000, "AOA", true)

  /** The tables after both checkouts. */
  const CHECKED_OUT: Ledger :=
    Ledger(map["plan" := MONTHLY_PLAN], map["org" := Organization(None)],
           map["A" := PendingRow(MONTHLY_PLAN), "B" := PendingRow(MONTHLY_PLAN)], map[], map[], [])

  lemma CheckedOut(now: int, config: Config, sign: Signer)
    ensures Run(EMPTY, TwoMonthsPaid(now, config)[..3], sign) == CHECKED_OUT
  {
    var steps := TwoMonthsPaid(now, config);
    RunLast(EMPTY, steps[..3], sign);
    RunLast(EMPTY, steps[..2], sign);
    RunLast(EMPTY, steps[..1], sign);
    assert steps[..3][..2] == steps[..2] && steps[..2][..1] == steps[..1] && steps[..1][..0] == [];
    hide AddInterval, ApplyPaymentEvent, Run;
    assert Run(EMPTY, [], sign) == EMPTY by { RunNone(EMPTY, sign); }
  }

  lemma RunNone(l: Ledger, sign: Signer)
    ensures Run(l, [], sign) == l
  {
  }

  /** A run is the run of all but its last step, and then that step. */
  lemma {:induction false} RunLast(l: Ledger, steps: seq<Step>, sign: Signer)
    requires steps != []
    ensures var n := |steps| - 1; Run(l, steps, sign) == Do(Run(l, steps[..n], sign), steps[n], sign).ledger
    decreases |steps|
  {
    hide Do;
    var n := |steps| - 1;
    if n == 0 {
      assert steps[1..] == [] && steps[..0] == [];
    } else {
      RunLast(Do(l, steps[0], sign).ledger, steps[1..], sign);
      assert steps[1..][..n - 1] == steps[..n][1..];
    }
  }

  lemma FirstPaid(now: int, config: Config, sign: Signer)
    requires Inv(CHECKED_OUT, sign)
    ensures var l := Do(CHECKED_OUT, Webhook(PaymentEvent("1", true, "A", None, now), now, config), sign).ledger;
            && l.plans == CHECKED_OUT.plans && l.organizations == CHECKED_OUT.organizations
            && "B" in l.transactions && l.transactions["B"] == PendingRow(MONTHLY_PLAN)
            && !EventTaken(l.transactions, "2")
            && "org" in l.subscriptions && l.subscriptions["org"].period.end == AddInterval(now, Monthly)
  {
    hide Inv, Do, AddInterval;
    var paid := PaymentStep(CHECKED_OUT, PaymentEvent("1", true, "A", None, now), now, config, sign);
  }

  lemma SecondPaid(l: Ledger, now: int, config: Config, sign: Signer)
    requires Inv(l, sign) && l.plans == CHECKED_OUT.plans && l.organizations == CHECKED_OUT.organizations
    requires "B" in l.transactions && l.transactions["B"] == PendingRow(MONTHLY_PLAN)
             && !EventTaken(l.transactions, "2")
    requires "org" in l.subscriptions && l.subscriptions["org"].period.end == AddInterval(now, Monthly)
    ensures var m := Do(l, Webhook(PaymentEvent("2", true, "B", None, now), now, config), sign).ledger;
            && m.plans == CHECKED_OUT.plans && m.organizations == CHECKED_OUT.organizations
            && "org" in m.subscriptions
            && m.subscriptions["org"].period.end == AddInterval(AddInterval(now, Monthly), Monthly)
  {
    hide Inv, Do, AddInterval, EventTaken;
    IntervalBounds(now, Monthly);
    var paid := PaymentStep(l, PaymentEvent("2", true, "B", None, now), now, config, sign);
  }

  lemma BothPaid(now: int, config: Config, sign: Signer)
    ensures var l := Run(EMPTY, TwoMonthsPaid(now, config), sign);
            && l.plans == CHECKED_OUT.plans && l.organizations == CHECKED_OUT.organizations
            && "org" in l.subscriptions
            && l.subscriptions["org"].period.end == AddInterval(AddInterval(now, Monthly), Monthly)
  {
    var steps := TwoMonthsPaid(now, config);
    CheckedOut(now, config, sign);
    ReachableInv(steps[..3], sign);
    ReachableInv(steps[..4], sign);
    RunLast(EMPTY, steps, sign);
    RunLast(EMPTY, steps[..4], sign);
    assert steps[..4][..3] == steps[..3];
    hide Run, Inv, Do, AddInterval, CHECKED_OUT;
    FirstPaid(now, config, sign);
    SecondPaid(Run(EMPTY, steps[..4], sign), now, config, sign);
  }

  lemma AssignedAgain(l: Ledger, now: int, sign: Signer)
    requires l.plans == CHECKED_OUT.plans && l.organizations == CHECKED_OUT.organizations
    ensures var m := Do(l, Assign("org", "plan", now), sign).ledger;
            "org" in m.subscriptions && m.subscriptions["org"].period.end == AddInterval(now, Monthly)
  {
    hide AddInterval;
  }

  lemma OneAndTwoMonths(now: int)
    ensures AddIntervals(now, Monthly, 1) == AddInterval(now, Monthly)
    ensures AddIntervals(now, Monthly, 2) == AddInterval(AddInterval(now, Monthly), Monthly)
    ensures AddIntervals(now, Monthly, 1) < AddIntervals(now, Monthly, 2)
  {
    IntervalBounds(AddInterval(now, Monthly), Monthly);
    hide AddInterval;
    assert AddIntervals(now, Monthly, 0) == now;
  }

  /** At every instant: two months were paid for, and an assignment of the same plan leaves one of them. */
  lemma AssignmentTakesPaidMonth(now: int, config: Config, sign: Signer)
    ensures var paid := Run(EMPTY, TwoMonthsPaid(now, config), sign);
            var after := Run(EMPTY, TwoMonthsPaid(now, config) + [Assign("org", "plan", now)], sign);
            && "org" in paid.subscriptions && "org" in after.subscriptions
            && paid.subscriptions["org"].period.end == AddIntervals(now, Monthly, 2)
            && after.subscriptions["org"].period.end == AddIntervals(now, Monthly, 1)
            && after.subscriptions["org"].period.end < paid.subscriptions["org"].period.end
  {
    hide *;
    var steps, assign := TwoMonthsPaid(now, config), Assign("org", "plan", now);
    BothPaid(now, config, sign);
    AssignedAgain(Run(EMPTY, steps, sign), now, sign);
    RunLast(EMPTY, steps + [assign], sign);
    assert (steps + [assign])[..|steps|] == steps;
    OneAndTwoMonths(now);
  }
}

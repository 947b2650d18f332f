/** Which plan an organization has and until when it can operate, over whole runs of the billing ledger. */
module SubscriptionHistory {
  import opened Wrappers
  import opened Calendar
  import opened BillingRules
  import opened PaymentProtocol
  import opened BillingLedger
  import opened BillingInvariant
  import opened BillingTheorems
  import opened PaidTime

  /* ---------------------------------------------------------------------- */
  /* The plan                                                               */
  /* ---------------------------------------------------------------------- */

  function PlanOf(l: Ledger, o: OrganizationId): Option<PlanId> {
    if o in l.subscriptions then Some(l.subscriptions[o].planId) else None
  }

  /** The plan that a step gives to `o`: the one paid for, the one assigned, or the one of the first trial. */
  ghost function PlanGiven(l: Ledger, step: Step, sign: Signer, o: OrganizationId): Option<PlanId> {
    if PaysFor(l, step, sign, o) then Some(l.transactions[step.event.reference].planId)
    else if Assigns(l, step, o) then Some(step.planId)
    else if StartsTrial(l, step, o) then step.trialPlan
    else None
  }

  /** The plan given last in a run. */
  ghost function LastPlanGiven(l: Ledger, steps: seq<Step>, sign: Signer, o: OrganizationId): Option<PlanId>
    decreases |steps|
  {
    if steps == [] then None
    else
      var later := LastPlanGiven(Do(l, steps[0], sign).ledger, steps[1..], sign, o);
      if later.Some? then later else PlanGiven(l, steps[0], sign, o)
  }

  lemma {:induction false} PlanFrom(l: Ledger, steps: seq<Step>, sign: Signer, o: OrganizationId)
    requires Inv(l, sign)
    ensures var last := LastPlanGiven(l, steps, sign, o);
            PlanOf(Run(l, steps, sign), o) == if last.Some? then last else PlanOf(l, o)
    decreases |steps|
  {
    hide Inv, Do, PaysFor, Assigns;
    if steps == [] {
    } else {
      SubscriptionStep(l, steps[0], sign, o);
      DoKeepsInv(l, steps[0], sign);
      PlanFrom(Do(l, steps[0], sign).ledger, steps[1..], sign, o);
    }
  }

  /** An organization has the plan of its last payment, assignment or first trial, whichever came last. */
  lemma PlanIsLastGiven(steps: seq<Step>, sign: Signer, o: OrganizationId)
    ensures PlanOf(Run(EMPTY, steps, sign), o) == LastPlanGiven(EMPTY, steps, sign, o)
  {
    hide Inv, Run, LastPlanGiven;
    EmptyLedger(sign);
    PlanFrom(EMPTY, steps, sign, o);
  }

  /* ---------------------------------------------------------------------- */
  /* Operation                                                              */
  /* ---------------------------------------------------------------------- */

  predicate Running(period: Period) {
    (period.status.Active? || period.status.Trialing?) && !period.cancelAtPeriodEnd
  }

  lemma {:induction false} RunningFrom(l: Ledger, steps: seq<Step>, sign: Signer, o: OrganizationId)
    requires Inv(l, sign)
    requires o in l.subscriptions ==> Running(l.subscriptions[o].period)
    ensures var m := Run(l, steps, sign); o in m.subscriptions ==> Running(m.subscriptions[o].period)
    decreases |steps|
  {
    hide Inv, Do, AddInterval, PaysFor, Assigns, StartsTrial, PaidInterval;
    if steps == [] {
    } else {
      SubscriptionStep(l, steps[0], sign, o);
      DoKeepsInv(l, steps[0], sign);
      RunningFrom(Do(l, steps[0], sign).ledger, steps[1..], sign, o);
    }
  }

  /** In every reachable state an organization can operate exactly before the end of the period it has. */
  lemma OperationalIff(steps: seq<Step>, sign: Signer, o: OrganizationId, now: int)
    ensures var l := Run(EMPTY, steps, sign);
            IsOperational(CurrentPeriod(l.subscriptions, o), now)
            <==> o in l.subscriptions && now < l.subscriptions[o].period.end
  {
    hide Inv, Run;
    EmptyLedger(sign);
    RunningFrom(EMPTY, steps, sign, o);
  }

  /** A subscription that is over, past due, cancelled or expired is not operational, and none is not. */
  lemma NotOperational(existing: Option<Period>, now: int)
    requires match existing
             case None => true
             case Some(p) => p.end <= now || p.status.PastDue? || p.status.Cancelled? || p.status.Expired?
    ensures !IsOperational(existing, now)
  {
  }
}

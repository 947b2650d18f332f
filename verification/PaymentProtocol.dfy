/** What the organization ledger and the customer ledger share: statuses, webhook events and paid periods. */
module PaymentProtocol {
  import opened Wrappers
  import opened Calendar
  import opened BillingRules

  type Reference = string
  type EventId = string

  datatype TransactionStatus = Pending | UnderReview | Succeeded | Failed | Refunded {
    /** Only a payment in one of these states can be claimed by a webhook. */
    predicate Open() {
      Pending? || UnderReview?
    }
  }

  datatype PaymentMethod = MulticaixaExpress | BankTransfer | QrCode | Card

  /** A normalised webhook event. */
  datatype PaymentEvent = PaymentEvent(
    eventId: EventId,
    succeeded: bool,
    reference: Reference,
    providerReference: Option<string>,
    paidAt: int)

  datatype SubscriptionStatus = Trialing | Active | PastDue | Cancelled | Expired

  datatype Period = Period(status: SubscriptionStatus, start: int, end: int, cancelAtPeriodEnd: bool)

  predicate StillValid(existing: Option<Period>, now: int) {
    existing.Some? && existing.value.end > now
  }

  /** A paid interval is added to the running period, or to now when there is none or it is over. */
  function Extend(existing: Option<Period>, now: int, interval: BillingInterval): Period {
    var stillValid := StillValid(existing, now);
    Period(Active,
           if stillValid then existing.value.start else now,
           AddInterval(if stillValid then existing.value.end else now, interval),
           false)
  }

  function Trial(now: int, days: int): Period {
    Period(Trialing, now, now + days * MS_PER_DAY, false)
  }

  /** isSubscriptionOperational and isCustomerOperational. */
  predicate IsOperational(period: Option<Period>, now: int) {
    && period.Some?
    && (period.value.status.Trialing? || period.value.status.Active?)
    && period.value.end > now
  }

  /**
   A payment never shortens a period, and is worth at least 28 days from the later of now and the old end. A period that
   still runs keeps its start. The result is operational exactly until it ends.
   */
  lemma ExtendNeverLoses(existing: Option<Period>, now: int, interval: BillingInterval)
    ensures var later := if existing.Some? && existing.value.end > now then existing.value.end else now;
            && Extend(existing, now, interval).end == AddInterval(later, interval)
            && Extend(existing, now, interval).end >= later + 28 * MS_PER_DAY
            && Extend(existing, now, interval).start
               == (if existing.Some? && existing.value.end > now then existing.value.start else now)
            && Extend(existing, now, interval).status.Active? && !Extend(existing, now, interval).cancelAtPeriodEnd
            && forall t :: t < Extend(existing, now, interval).end <==>
                 IsOperational(Some(Extend(existing, now, interval)), t)
  {
    hide AddInterval;
    var later := if existing.Some? && existing.value.end > now then existing.value.end else now;
    IntervalBounds(later, interval);
  }

  /** Why a payment takes no proof of payment. */
  datatype ProofRefusal = AlreadyConfirmed | NoLongerAccepted | CardPayment
}

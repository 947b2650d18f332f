/** What the invariant means for a reader of the tables, in every state that a run can reach. */
module BillingTheorems {
  import opened Wrappers
  import opened Text
  import opened Agt
  import opened BillingRules
  import opened Calendar
  import opened IsoTime
  import opened PaymentProtocol
  import opened BillingLedger
  import opened BillingInvariant
  import opened Sums
  import Vat

  /* ---------------------------------------------------------------------- */
  /* Numbering                                                              */
  /* ---------------------------------------------------------------------- */

  /** A series hands out exactly the numbers 1 to its counter, each of them to exactly one transaction. */
  lemma NumbersHaveNoGapsOrRepeats(steps: seq<Step>, sign: Signer, key: SeriesKey, n: int)
    ensures var l := Run(EMPTY, steps, sign);
            && (HasDocument(l.transactions, key, n) <==> key in l.series && 1 <= n <= l.series[key].nextNumber)
            && (forall r, s :: Holds(l.transactions, r, key, n) && Holds(l.transactions, s, key, n) ==> r == s)
  {
    hide Run, RowOk, CountsOk, ChainOk;
    ReachableInv(steps, sign);
    var l := Run(EMPTY, steps, sign);
    if r :| Holds(l.transactions, r, key, n) {
      assert DocumentOk(l.transactions[r], l.series);
    }
  }

  /** As many payments succeeded as numbers were handed out and as periods were bought. */
  lemma PaymentsNumbersAndPeriodsAgree(steps: seq<Step>, sign: Signer, o: OrganizationId)
    ensures var l := Run(EMPTY, steps, sign);
            |PaidOf(l.transactions, o)| == NumbersIssued(l.series, o) == ExtensionsOf(l.extensions, o)
  {
    hide Run;
    ReachableInv(steps, sign);
  }

  /** Within one organization, an invoice number is printed on one transaction only. */
  lemma InvoiceNumbersUnique(steps: seq<Step>, sign: Signer, r: Reference, s: Reference)
    ensures var t := Run(EMPTY, steps, sign).transactions;
            r in t && s in t && t[r].organizationId == t[s].organizationId
            && t[r].invoice.Some? && t[s].invoice.Some?
            && t[r].invoice.value.invoiceNumber == t[s].invoice.value.invoiceNumber
            ==> r == s
  {
    hide Run, FormatSeriesCode, BuildInvoiceNumber, YearOf, CountsOk, ChainOk, NumbersDense, Vat.Breakdown;
    ReachableInv(steps, sign);
    var l := Run(EMPTY, steps, sign);
    var t := l.transactions;
    if r in t && s in t && t[r].organizationId == t[s].organizationId && t[r].invoice.Some? && t[s].invoice.Some?
       && t[r].invoice.value.invoiceNumber == t[s].invoice.value.invoiceNumber
    {
      var i, j := t[r].invoice.value, t[s].invoice.value;
      assert DocumentOk(t[r], l.series) && DocumentOk(t[s], l.series);
      InvoiceNumberInjective(FR, i.series.year, i.sequence, FR, j.series.year, j.sequence);
      assert Holds(t, r, i.series, i.sequence) && Holds(t, s, i.series, i.sequence);
    }
  }

  /**
   What is printed on the documents of every reachable state: FR, the year in which the payment was made, a slash, and
   the position in the series in six digits or more. The part before the slash is the code that is stored and signed.
   */
  lemma PrintedNumbers(steps: seq<Step>, sign: Signer, r: Reference) returns (year: string, digits: string)
    requires var t := Run(EMPTY, steps, sign).transactions; r in t && t[r].invoice.Some?
    ensures var t := Run(EMPTY, steps, sign).transactions[r];
            && t.paidAt.Some?
            && t.invoice.value.seriesCode == "FR" + year
            && t.invoice.value.invoiceNumber == "FR" + year + "/" + digits
            && IsIntText(year) && IntValue(year) == YearOf(DayOf(t.paidAt.value))
            && AllDigits(digits) && DecimalValue(digits) == t.invoice.value.sequence
            && |digits| >= 6 && (|digits| > 6 ==> digits[0] != '0')
  {
    hide Run, BuildInvoiceNumber, FormatSeriesCode, YearOf, CountsOk, ChainOk, NumbersDense, NumbersUnique,
         Vat.Breakdown, IntValue, DecimalValue, IsIntText;
    ReachableInv(steps, sign);
    var l := Run(EMPTY, steps, sign);
    assert DocumentOk(l.transactions[r], l.series);
    var i := l.transactions[r].invoice.value;
    year, digits := InvoiceNumberText(FR, i.series.year, i.sequence);
  }

  /* ---------------------------------------------------------------------- */
  /* Amounts                                                                */
  /* ---------------------------------------------------------------------- */

  function AmountOf(transactions: Transactions): Reference -> nat {
    r => if r in transactions && transactions[r].amountCents >= 0 then transactions[r].amountCents else 0
  }

  function NetOf(transactions: Transactions): Reference -> nat {
    r => if r in transactions && transactions[r].invoice.Some? && transactions[r].invoice.value.subtotalCents >= 0
         then transactions[r].invoice.value.subtotalCents else 0
  }

  function VatOf(transactions: Transactions): Reference -> nat {
    r => if r in transactions && transactions[r].invoice.Some? && transactions[r].invoice.value.vatCents >= 0
         then transactions[r].invoice.value.vatCents else 0
  }

  /** Net and VAT over all paid invoices of an organization add up to what it paid. */
  lemma PaidTotalsConserved(steps: seq<Step>, sign: Signer, o: OrganizationId)
    ensures var t := Run(EMPTY, steps, sign).transactions;
            var paid := PaidOf(t, o);
            Sum(paid, NetOf(t)) + Sum(paid, VatOf(t)) == Sum(paid, AmountOf(t))
  {
    hide Run, CountsOk, ChainOk, NumbersDense, FormatSeriesCode, YearOf;
    ReachableInv(steps, sign);
    var l := Run(EMPTY, steps, sign);
    var t := l.transactions;
    forall r | r in PaidOf(t, o)
      ensures AmountOf(t)(r) == NetOf(t)(r) + VatOf(t)(r)
    {
      assert RowOk(t[r]) && DocumentOk(t[r], l.series);
      Vat.BreakdownConserves(t[r].amountCents, t[r].invoice.value.vatRateBps);
    }
    SumPlus(PaidOf(t, o), NetOf(t), VatOf(t), AmountOf(t));
  }

  /* ---------------------------------------------------------------------- */
  /* Chain                                                                  */
  /* ---------------------------------------------------------------------- */

  /** What an auditor does with the printed documents of a series: check each against the hash before it. */
  predicate VerifyChain(rows: seq<Transaction>, n: nat, previous: string, sign: Signer) {
    rows != [] ==>
      && rows[0].invoice.Some?
      && rows[0].invoice.value.sequence == n
      && SignedOver(rows[0], PreviousHashOf(previous), sign)
      && VerifyChain(rows[1..], n + 1, rows[0].invoice.value.hash, sign)
  }

  ghost predicate IsDocument(transactions: Transactions, key: SeriesKey, n: int, t: Transaction) {
    exists r :: Holds(transactions, r, key, n) && t == transactions[r]
  }

  /** `rows` lists the documents of the series from number n on, in order. */
  ghost predicate ListsSeries(l: Ledger, key: SeriesKey, n: nat, rows: seq<Transaction>)
    requires key in l.series
  {
    && |rows| == l.series[key].nextNumber + 1 - n
    && forall i :: 0 <= i < |rows| ==> IsDocument(l.transactions, key, n + i, rows[i])
  }

  /** A document is signed over the hash of the document one number below it. */
  lemma DocumentFollows(transactions: Transactions, sign: Signer, key: SeriesKey, n: int, t: Transaction,
                        p: Transaction)
    requires NumbersUnique(transactions) && ChainOk(transactions, sign)
    requires IsDocument(transactions, key, n, t)
    ensures t.invoice.Some? && t.invoice.value.sequence == n
    ensures n <= 1 ==> SignedOver(t, "", sign)
    ensures n > 1 && IsDocument(transactions, key, n - 1, p) ==>
              p.invoice.Some? && SignedOver(t, PreviousHashOf(p.invoice.value.hash), sign)
  {
    hide SignedOver, PreviousHashOf;
    var r :| Holds(transactions, r, key, n) && t == transactions[r];
    assert Chained(transactions, r, sign);
  }

  lemma {:induction false} ListedRowsVerify(l: Ledger, sign: Signer, key: SeriesKey, n: nat, rows: seq<Transaction>,
                                            p: Transaction, previous: string)
    requires NumbersUnique(l.transactions) && ChainOk(l.transactions, sign)
    requires key in l.series && n >= 1 && ListsSeries(l, key, n, rows)
    requires if n == 1 then previous == ""
             else IsDocument(l.transactions, key, n - 1, p) && p.invoice.Some? && previous == p.invoice.value.hash
    ensures VerifyChain(rows, n, previous, sign)
    decreases |rows|
  {
    hide SignedOver, PreviousHashOf, IsDocument, NumbersUnique, ChainOk;
    if rows == [] {
    } else {
      EmptyPrevious();
      assert IsDocument(l.transactions, key, n + 0, rows[0]);
      DocumentFollows(l.transactions, sign, key, n, rows[0], p);
      var rest := rows[1..];
      forall i | 0 <= i < |rest|
        ensures IsDocument(l.transactions, key, n + 1 + i, rest[i])
      {
        assert IsDocument(l.transactions, key, n + (i + 1), rows[i + 1]);
      }
      ListedRowsVerify(l, sign, key, n + 1, rest, rows[0], rows[0].invoice.value.hash);
    }
  }

  /** In every reachable state, the documents of any series listed from 1 pass the audit. */
  lemma ReachableSeriesVerify(steps: seq<Step>, sign: Signer, key: SeriesKey, rows: seq<Transaction>)
    ensures var l := Run(EMPTY, steps, sign);
            key in l.series && ListsSeries(l, key, 1, rows) ==> VerifyChain(rows, 1, "", sign)
  {
    hide Run, CountsOk, ChainOk, NumbersUnique, DocumentsOk, NumbersDense, IsDocument;
    ReachableInv(steps, sign);
    var l := Run(EMPTY, steps, sign);
    if key in l.series && ListsSeries(l, key, 1, rows) && rows != [] {
      ListedRowsVerify(l, sign, key, 1, rows, rows[0], "");
    }
  }

  lemma HeldIsDocument(transactions: Transactions, key: SeriesKey, n: int, r: Reference)
    requires Holds(transactions, r, key, n)
    ensures IsDocument(transactions, key, n, transactions[r])
  {
  }

  /** The listing an auditor needs, from number n on. */
  lemma {:induction false} ListingFrom(l: Ledger, key: SeriesKey, n: nat) returns (rows: seq<Transaction>)
    requires NumbersDense(l) && key in l.series && 1 <= n <= l.series[key].nextNumber + 1
    ensures ListsSeries(l, key, n, rows)
    decreases l.series[key].nextNumber + 1 - n
  {
    hide IsDocument, FormatSeriesCode;
    if n == l.series[key].nextNumber + 1 {
      rows := [];
    } else {
      assert HasDocument(l.transactions, key, n);
      var r :| Holds(l.transactions, r, key, n);
      var rest := ListingFrom(l, key, n + 1);
      rows := [l.transactions[r]] + rest;
      HeldIsDocument(l.transactions, key, n, r);
      forall i | 0 <= i < |rows|
        ensures IsDocument(l.transactions, key, n + i, rows[i])
      {
        assert i > 0 ==> IsDocument(l.transactions, key, n + 1 + (i - 1), rest[i - 1]) && rows[i] == rest[i - 1];
      }
    }
  }

  /** Every series of every reachable state can be listed from 1 to its counter, and the listing passes the audit. */
  lemma SeriesListing(steps: seq<Step>, sign: Signer, key: SeriesKey) returns (rows: seq<Transaction>)
    requires key in Run(EMPTY, steps, sign).series
    ensures var l := Run(EMPTY, steps, sign);
            |rows| == l.series[key].nextNumber && ListsSeries(l, key, 1, rows) && VerifyChain(rows, 1, "", sign)
  {
    hide Run, CountsOk, ChainOk, NumbersUnique, DocumentsOk, IsDocument, FormatSeriesCode;
    ReachableInv(steps, sign);
    rows := ListingFrom(Run(EMPTY, steps, sign), key, 1);
    ReachableSeriesVerify(steps, sign, key, rows);
  }

  /** The string that document j of a listing was signed over; `previous` is the hash before the first row. */
  function SignedText(rows: seq<Transaction>, j: nat, previous: string): string
    requires j < |rows| && forall i :: 0 <= i < |rows| ==> rows[i].invoice.Some?
  {
    var before := if j == 0 then previous else rows[j - 1].invoice.value.hash;
    BuildInvoiceCanonical(CanonicalInput(rows[j], PreviousHashOf(before)))
  }

  /** Two different strings of the listings with the same hash. */
  predicate CollidesAt(a: seq<Transaction>, b: seq<Transaction>, j: nat, previous: string, sign: Signer)
    requires forall i :: 0 <= i < |a| ==> a[i].invoice.Some?
    requires forall i :: 0 <= i < |b| ==> b[i].invoice.Some?
  {
    && j < |a| && j < |b|
    && SignedText(a, j, previous) != SignedText(b, j, previous)
    && sign(SignedText(a, j, previous)).hash == sign(SignedText(b, j, previous)).hash
  }

  /** Every document's text fields are free of the separator; `previous` is the hash before the first row. */
  ghost predicate Printable(rows: seq<Transaction>, previous: string) {
    rows != [] ==>
      && rows[0].invoice.Some?
      && SeparatorFree(CanonicalInput(rows[0], PreviousHashOf(previous)))
      && Printable(rows[1..], rows[0].invoice.value.hash)
  }

  lemma SameFields(t: Transaction, u: Transaction, previous: string, other: string)
    requires t.invoice.Some? && u.invoice.Some?
    requires CanonicalInput(t, previous) == CanonicalInput(u, previous)
    ensures CanonicalInput(t, other) == CanonicalInput(u, other)
  {
    hide IsoString;
  }

  lemma SameInstant(t: Transaction, u: Transaction)
    requires t.invoice.Some? && u.invoice.Some? && CanonicalInput(t, "") == CanonicalInput(u, "")
    ensures t.invoice.value.issuedAt == u.invoice.value.issuedAt
  {
    hide IsoString;
    IsoReadsBack(t.invoice.value.issuedAt);
    IsoReadsBack(u.invoice.value.issuedAt);
  }

  lemma {:induction false} VerifiedRowsIssued(rows: seq<Transaction>, n: nat, previous: string, sign: Signer)
    requires VerifyChain(rows, n, previous, sign)
    ensures forall i :: 0 <= i < |rows| ==> rows[i].invoice.Some?
    decreases |rows|
  {
    hide SignedOver;
    if rows == [] {
    } else {
      VerifiedRowsIssued(rows[1..], n + 1, rows[0].invoice.value.hash, sign);
      assert forall i :: 1 <= i < |rows| ==> rows[i] == rows[1..][i - 1];
    }
  }

  /**
   Tampering shows: if two listings carry the same hashes and both pass the audit, they agree in all eleven signed
   fields of every document and in the instant it was issued, or else the listings themselves contain a collision.
   */
  lemma {:induction false} HashesBindFields(a: seq<Transaction>, b: seq<Transaction>, n: nat, previous: string,
                                            sign: Signer,
                                            k: nat)
    requires VerifyChain(a, n, previous, sign) && VerifyChain(b, n, previous, sign)
    requires Printable(a, previous) && Printable(b, previous)
    requires |a| == |b| && k < |a|
    requires forall i :: 0 <= i < |a| && a[i].invoice.Some? && b[i].invoice.Some? ==>
               a[i].invoice.value.hash == b[i].invoice.value.hash
    ensures forall i :: 0 <= i < |a| ==> a[i].invoice.Some? && b[i].invoice.Some?
    ensures || (exists j :: 0 <= j <= k && CollidesAt(a, b, j, previous, sign))
            || (&& CanonicalInput(a[k], "") == CanonicalInput(b[k], "")
                && a[k].invoice.value.issuedAt == b[k].invoice.value.issuedAt)
    decreases k
  {
    hide PreviousHashOf, BuildInvoiceCanonical, SeparatorFree, CanonicalInput;
    VerifiedRowsIssued(a, n, previous, sign);
    VerifiedRowsIssued(b, n, previous, sign);
    var x, y := CanonicalInput(a[0], PreviousHashOf(previous)), CanonicalInput(b[0], PreviousHashOf(previous));
    if BuildInvoiceCanonical(x) != BuildInvoiceCanonical(y) {
      assert CollidesAt(a, b, 0, previous, sign);
    } else if k == 0 {
      CanonicalInjective(x, y);
      SameFields(a[0], b[0], PreviousHashOf(previous), "");
      SameInstant(a[0], b[0]);
    } else {
      var hash := a[0].invoice.value.hash;
      HashesBindFields(a[1..], b[1..], n + 1, hash, sign, k - 1);
      if j :| 0 <= j <= k - 1 && CollidesAt(a[1..], b[1..], j, hash, sign) {
        assert SignedText(a[1..], j, hash) == SignedText(a, j + 1, previous);
        assert SignedText(b[1..], j, hash) == SignedText(b, j + 1, previous);
        assert CollidesAt(a, b, j + 1, previous, sign);
      }
    }
  }

  /* ---------------------------------------------------------------------- */
  /* Single steps                                                           */
  /* ---------------------------------------------------------------------- */

  function FailedRow(t: Transaction, e: PaymentEvent): Transaction {
    t.(status := Failed, providerEventId := Some(e.eventId), providerReference := e.providerReference,
       failureReason := Some("reported_failed_by_provider"))
  }

  /** A webhook does nothing, or marks the row as failed, or settles an open payment. */
  lemma WebhookCases(l: Ledger, e: PaymentEvent, now: int, config: Config, sign: Signer)
    ensures var result := ApplyPaymentEvent(l, e, now, config, sign);
            || (result.ledger == l && (result.reply.Rejected? || (
                 && result.reply.EventDuplicate? && e.reference in l.transactions
                 && (l.transactions[e.reference].providerEventId == Some(e.eventId)
                     || !l.transactions[e.reference].status.Open()))))
            || (&& e.reference in l.transactions && !e.succeeded && !l.transactions[e.reference].status.Succeeded?
                && result.ledger
                   == l.(transactions := l.transactions[e.reference := FailedRow(l.transactions[e.reference], e)])
                && result.reply.EventApplied?)
            || (&& e.reference in l.transactions && e.succeeded && l.transactions[e.reference].status.Open()
                && result == Settle(l, e, now, config, sign))
  {
    hide Settle, EventTaken;
  }

  /** A rejected step changes nothing, except that a checkout the provider refuses is recorded as failed. */
  lemma RejectedStepsAbort(l: Ledger, step: Step, sign: Signer)
    requires Do(l, step, sign).reply.Rejected?
    ensures if step.Checkout? && Do(l, step, sign).reply.error.ProviderError?
            then exists t: Transaction :: t.status.Failed? && step.reference !in l.transactions
                             && Do(l, step, sign).ledger == l.(transactions := l.transactions[step.reference := t])
            else Do(l, step, sign).ledger == l
  {
    hide AddInterval, AllocateInvoiceNumber, IssueInvoice, PreviousInvoiceHash;
    if step.Checkout? && Do(l, step, sign).reply.error.ProviderError? {
      var t := Do(l, step, sign).ledger.transactions[step.reference];
      assert t.status.Failed?;
    }
  }

  /**
   In a reachable state a webhook is rejected only for an unknown reference, an event id that another payment used,
   or a missing plan: the number it takes is always free, and the amount always splits.
   */
  lemma WebhookRejectedIff(l: Ledger, e: PaymentEvent, now: int, config: Config, sign: Signer)
    requires Inv(l, sign)
    ensures ApplyPaymentEvent(l, e, now, config, sign).reply.Rejected? <==>
              || e.reference !in l.transactions
              || (var t := l.transactions[e.reference];
                  && t.providerEventId != Some(e.eventId)
                  && (if e.succeeded then t.status.Open() else !t.status.Succeeded?)
                  && (EventTaken(l.transactions, e.eventId) || (e.succeeded && t.planId !in l.plans)))
  {
    if e.reference in l.transactions {
      var t := l.transactions[e.reference];
      if e.succeeded && t.status.Open() && !EventTaken(l.transactions, e.eventId) && t.planId in l.plans {
        var paid, key, n := SettleShape(l, e, now, config, sign);
      }
      hide Settle, Inv;
      assert t.planId !in l.plans
             ==> Settle(l, e, now, config, sign).reply.Rejected? by { MissingPlan(l, e, now, config, sign); }
    }
  }

  lemma MissingPlan(l: Ledger, e: PaymentEvent, now: int, config: Config, sign: Signer)
    requires e.reference in l.transactions
    ensures l.transactions[e.reference].planId !in l.plans ==>
              Settle(l, e, now, config, sign) == StepResult(l, Rejected(NotFound))
  {
  }

  /** The step pays `r`: it applies a success event to an open payment. */
  ghost predicate Pays(l: Ledger, step: Step, sign: Signer, r: Reference) {
    && step.Webhook? && step.event.succeeded && step.event.reference == r
    && r in l.transactions && l.transactions[r].status.Open()
    && Do(l, step, sign).reply.EventApplied?
  }

  /** One number, one period and one paid row for the organization `o`. */
  ghost predicate TakesOne(l: Ledger, m: Ledger, r: Reference, o: OrganizationId) {
    && NumbersIssued(m.series, o) == NumbersIssued(l.series, o) + 1
    && (exists x :: m.extensions == l.extensions + [x] && x.organizationId == o && x.reference == r)
    && r in m.transactions && m.transactions[r].status.Succeeded?
  }

  /**
   Numbers, paid periods and invoices come from nothing else; a checkout, a proof, a failure or a replay takes none.
   */
  lemma OnlyPaymentsTakeNumbers(l: Ledger, step: Step, sign: Signer)
    requires Inv(l, sign)
    ensures var m := Do(l, step, sign).ledger;
            if step.Webhook? && Pays(l, step, sign, step.event.reference)
            then TakesOne(l, m, step.event.reference, l.transactions[step.event.reference].organizationId)
            else m.series == l.series && m.extensions == l.extensions
  {
    hide AddInterval, Inv;
    if step.Webhook? && Pays(l, step, sign, step.event.reference) {
      hide Do, ApplyPaymentEvent;
      PaysShape(l, step, sign);
    } else if step.Webhook? {
      WebhookTakesNone(l, step.event, step.now, step.config, sign);
    }
  }

  lemma WebhookTakesNone(l: Ledger, e: PaymentEvent, now: int, config: Config, sign: Signer)
    requires !Pays(l, Webhook(e, now, config), sign, e.reference)
    ensures var m := ApplyPaymentEvent(l, e, now, config, sign).ledger;
            m.(transactions := map[]) == l.(transactions := map[])
  {
    hide Settle, ApplyPaymentEvent, FailedRow;
    WebhookCases(l, e, now, config, sign);
    if e.reference in l.transactions {
      SettleReply(l, e, now, config, sign);
    }
  }

  lemma SettleReply(l: Ledger, e: PaymentEvent, now: int, config: Config, sign: Signer)
    requires e.reference in l.transactions
    ensures var result := Settle(l, e, now, config, sign);
            result.reply.EventApplied? || result.ledger == l
  {
    hide AddInterval, AllocateInvoiceNumber, IssueInvoice, PreviousInvoiceHash;
  }

  lemma PaysShape(l: Ledger, step: Step, sign: Signer)
    requires Inv(l, sign) && step.Webhook? && Pays(l, step, sign, step.event.reference)
    ensures var m := Do(l, step, sign).ledger;
            var t := l.transactions[step.event.reference];
            var o := t.organizationId;
            var existing := CurrentPeriod(l.subscriptions, o);
            && t.planId in l.plans
            && (var period := Extend(existing, step.now, l.plans[t.planId].interval);
                && m.subscriptions == l.subscriptions[o := Subscription(t.planId, period)]
                && m.extensions == l.extensions
                     + [Extension(o, step.event.reference, step.now, existing, l.plans[t.planId].interval, period)])
            && step.event.reference in m.transactions
            && m.transactions[step.event.reference].status.Succeeded?
            && m.plans == l.plans
            && NumbersIssued(m.series, o) == NumbersIssued(l.series, o) + 1
  {
    var e := step.event;
    hide Extend, PreviousInvoiceHash;
    assert RowOk(l.transactions[e.reference]);
    assert !EventTaken(l.transactions, e.eventId);
    assert Do(l, step, sign) == Settle(l, e, step.now, step.config, sign);
    var t := l.transactions[e.reference];
    assert t.planId in l.plans by { MissingPlan(l, e, step.now, step.config, sign); }
    var paid, key, n := SettleShape(l, e, step.now, step.config, sign);
    hide Settle, Do, FormatSeriesCode;
    PlanKept(l, e, step.now, step.config, sign);
    CountAllocation(l.series, key, Series(FormatSeriesCode(FR, key.year), n), t.organizationId);
  }

  lemma PlanKept(l: Ledger, e: PaymentEvent, now: int, config: Config, sign: Signer)
    requires e.reference in l.transactions
    ensures var m := Settle(l, e, now, config, sign).ledger;
            e.reference in m.transactions && m.transactions[e.reference].planId == l.transactions[e.reference].planId
  {
    hide AddInterval, AllocateInvoiceNumber, IssueInvoice, PreviousInvoiceHash;
  }
}

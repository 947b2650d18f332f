/** What every run of the billing ledger keeps. */
module BillingInvariant {
  import opened Wrappers
  import opened Agt
  import opened BillingRules
  import opened Calendar
  import opened IsoTime
  import opened PaymentProtocol
  import opened BillingLedger
  import opened Sums
  import Vat

  type Transactions = map<Reference, Transaction>

  /* ---------------------------------------------------------------------- */
  /* The invariant                                                          */
  /* ---------------------------------------------------------------------- */

  predicate RowOk(t: Transaction) {
    && t.amountCents > 0
    && (t.status.Succeeded? <==> t.invoice.Some?)
    && !t.status.Refunded?
    && (t.status.Open() ==> t.providerEventId.None? && t.paidAt.None?)
    && (t.status.Succeeded? ==> t.providerEventId.Some? && t.paidAt.Some?)
  }

  ghost predicate EventsUnique(transactions: Transactions) {
    forall r, s | r in transactions && s in transactions && transactions[r].providerEventId.Some? ::
      transactions[r].providerEventId == transactions[s].providerEventId ==> r == s
  }

  /** The numbering and the amounts of an issued invoice. */
  predicate DocumentOk(t: Transaction, series: map<SeriesKey, Series>)
    requires t.invoice.Some?
  {
    var i := t.invoice.value;
    && i.series in series
    && i.series.organizationId == t.organizationId
    && i.series.documentType == FR
    && i.series.year == YearOf(DayOf(i.issuedAt))
    && t.paidAt == Some(i.issuedAt)
    && 1 <= i.sequence <= series[i.series].nextNumber
    && i.seriesCode == FormatSeriesCode(FR, i.series.year)
    && BuildInvoiceNumber(i.seriesCode, i.sequence) == Success(i.invoiceNumber)
    && Vat.ValidRate(i.vatRateBps)
    && Vat.Breakdown(t.amountCents, i.vatRateBps)
       == Success(Vat.VatBreakdown(i.subtotalCents, i.vatCents, t.amountCents))
  }

  ghost predicate DocumentsOk(l: Ledger) {
    forall r :: r in l.transactions && l.transactions[r].invoice.Some? ==> DocumentOk(l.transactions[r], l.series)
  }

  /** No two transactions hold the same number of a series. */
  ghost predicate NumbersUnique(transactions: Transactions) {
    forall r, s, key, n :: Holds(transactions, r, key, n) && Holds(transactions, s, key, n) ==> r == s
  }

  /** Every number from 1 to the counter of a series is held by a transaction. */
  ghost predicate NumbersDense(l: Ledger) {
    forall key :: key in l.series ==>
      && l.series[key].nextNumber >= 1
      && l.series[key].code == FormatSeriesCode(key.documentType, key.year)
      && forall n :: 1 <= n <= l.series[key].nextNumber ==> HasDocument(l.transactions, key, n)
  }

  /** The eleven signed fields, read off the stored row and the four characters of the document before it. */
  function CanonicalInput(t: Transaction, previousHash: string): SignatureInput
    requires t.invoice.Some?
  {
    var i := t.invoice.value;
    SignatureInput(i.issuerTaxId.GetOr(""), t.customerTaxId.GetOr(""), i.series.documentType, i.seriesCode, i.sequence,
                   IsoString(i.issuedAt), i.subtotalCents, i.vatCents, t.amountCents, t.currency, previousHash)
  }

  predicate SignedOver(t: Transaction, previousHash: string, sign: Signer)
    requires t.invoice.Some?
  {
    var i := t.invoice.value;
    Signature(i.hash, i.certified) == sign(BuildInvoiceCanonical(CanonicalInput(t, previousHash)))
  }

  /** Document 1 is signed over an empty predecessor, document n over the hash of document n - 1, which exists. */
  ghost predicate Chained(transactions: Transactions, r: Reference, sign: Signer)
    requires r in transactions && transactions[r].invoice.Some?
  {
    var i := transactions[r].invoice.value;
    if i.sequence <= 1 then SignedOver(transactions[r], "", sign)
    else
      var n := i.sequence - 1;
      exists p :: Holds(transactions, p, i.series, n)
                  && SignedOver(transactions[r], PreviousHashOf(transactions[p].invoice.value.hash), sign)
  }

  ghost predicate ChainOk(transactions: Transactions, sign: Signer) {
    forall r :: r in transactions && transactions[r].invoice.Some? ==> Chained(transactions, r, sign)
  }

  ghost function PaidOf(transactions: Transactions, organizationId: OrganizationId): set<Reference> {
    set r | r in transactions && transactions[r].status.Succeeded? && transactions[r].organizationId == organizationId
  }

  ghost function SeriesOf(series: map<SeriesKey, Series>, organizationId: OrganizationId): set<SeriesKey> {
    set key | key in series && key.organizationId == organizationId
  }

  function CounterOf(series: map<SeriesKey, Series>): SeriesKey -> nat {
    key => if key in series then series[key].nextNumber else 0
  }

  /** How many numbers the series of an organization have handed out together. */
  ghost function NumbersIssued(series: map<SeriesKey, Series>, organizationId: OrganizationId): nat {
    Sum(SeriesOf(series, organizationId), CounterOf(series))
  }

  function ExtensionsOf(extensions: seq<Extension>, organizationId: OrganizationId): nat {
    if extensions == [] then 0
    else
      var n := |extensions| - 1;
      ExtensionsOf(extensions[..n], organizationId) + (if extensions[n].organizationId == organizationId then 1 else 0)
  }

  ghost predicate CountsOk(l: Ledger) {
    forall o: OrganizationId ::
      |PaidOf(l.transactions, o)| == NumbersIssued(l.series, o) == ExtensionsOf(l.extensions, o)
  }

  ghost predicate ExtensionsOk(extensions: seq<Extension>) {
    forall x :: x in extensions ==> x.period == Extend(x.existing, x.at, x.interval)
  }

  ghost predicate Inv(l: Ledger, sign: Signer) {
    && (forall r :: r in l.transactions ==> RowOk(l.transactions[r]))
    && EventsUnique(l.transactions)
    && DocumentsOk(l)
    && NumbersUnique(l.transactions)
    && NumbersDense(l)
    && ChainOk(l.transactions, sign)
    && CountsOk(l)
    && ExtensionsOk(l.extensions)
  }

  lemma EmptyLedger(sign: Signer)
    ensures Inv(EMPTY, sign)
  {
    forall o: OrganizationId
      ensures |PaidOf(EMPTY.transactions, o)| == NumbersIssued(EMPTY.series, o) == ExtensionsOf(EMPTY.extensions, o)
    {
      assert PaidOf(EMPTY.transactions, o) == {};
      assert SeriesOf(EMPTY.series, o) == {};
    }
  }

  /* ---------------------------------------------------------------------- */
  /* Steps that leave paid rows alone                                       */
  /* ---------------------------------------------------------------------- */

  /** Writing a row that is not paid, where there was no paid row before. */
  lemma WriteUnpaidRow(l: Ledger, r: Reference, t: Transaction, sign: Signer)
    requires Inv(l, sign)
    requires r in l.transactions ==> !l.transactions[r].status.Succeeded?
    requires RowOk(t) && !t.status.Succeeded?
    requires t.providerEventId.Some? ==>
               forall s :: s in l.transactions && s != r ==> l.transactions[s].providerEventId != t.providerEventId
    ensures Inv(l.(transactions := l.transactions[r := t]), sign)
  {
    hide Chained, DocumentOk, Holds, NumbersIssued, HasDocument;
    var after := l.transactions[r := t];
    SameDocuments(l.transactions, after, sign);
    assert forall o :: PaidOf(after, o) == PaidOf(l.transactions, o);
  }

  /** Rows with an invoice, the holders of numbers and the chain depend on nothing else. */
  lemma SameDocuments(before: Transactions, after: Transactions, sign: Signer)
    requires forall r :: r in before && before[r].invoice.Some? ==> r in after && after[r] == before[r]
    requires forall r :: r in after && after[r].invoice.Some? ==> r in before && after[r] == before[r]
    ensures forall r, key, n :: Holds(before, r, key, n) <==> Holds(after, r, key, n)
    ensures forall key, n :: HasDocument(before, key, n) <==> HasDocument(after, key, n)
    ensures ChainOk(before, sign) ==> ChainOk(after, sign)
  {
    hide Holds;
    assert forall r, key, n :: Holds(before, r, key, n) <==> Holds(after, r, key, n) by {
      forall r, key, n
        ensures Holds(before, r, key, n) <==> Holds(after, r, key, n)
      {
        SameHolder(before, after, r, key, n);
      }
    }
    if ChainOk(before, sign) {
      forall r | r in after && after[r].invoice.Some?
        ensures Chained(after, r, sign)
      {
        assert Chained(before, r, sign);
        SameLink(before, after, r, sign);
      }
    }
  }

  lemma SameHolder(before: Transactions, after: Transactions, r: Reference, key: SeriesKey, n: int)
    requires forall r :: r in before && before[r].invoice.Some? ==> r in after && after[r] == before[r]
    requires forall r :: r in after && after[r].invoice.Some? ==> r in before && after[r] == before[r]
    ensures Holds(before, r, key, n) <==> Holds(after, r, key, n)
  {
  }

  /** A link of the chain survives as long as every holder of a number keeps its row. */
  lemma SameLink(before: Transactions, after: Transactions, r: Reference, sign: Signer)
    requires forall r :: r in before && before[r].invoice.Some? ==> r in after && after[r] == before[r]
    requires r in before && before[r].invoice.Some? && Chained(before, r, sign)
    ensures Chained(after, r, sign)
  {
    hide BuildInvoiceCanonical, CanonicalInput, PreviousHashOf, SignedOver;
    var i := before[r].invoice.value;
    if i.sequence > 1 {
      var n := i.sequence - 1;
      var p :| Holds(before, p, i.series, n)
               && SignedOver(before[r], PreviousHashOf(before[p].invoice.value.hash), sign);
      assert Holds(after, p, i.series, n);
    }
  }

  /** Columns other than transactions, series and history do not matter. */
  lemma WriteOtherTables(l: Ledger, m: Ledger, sign: Signer)
    requires Inv(l, sign)
    requires m.transactions == l.transactions && m.series == l.series && m.extensions == l.extensions
    ensures Inv(m, sign)
  {
  }

  /* ---------------------------------------------------------------------- */
  /* A settled payment                                                      */
  /* ---------------------------------------------------------------------- */

  /** The number a series hands out next is one past every number that any transaction holds. */
  lemma NextNumberIsFree(l: Ledger, organizationId: OrganizationId, date: int, sign: Signer)
    requires Inv(l, sign)
    ensures var a := AllocateInvoiceNumber(l.series, organizationId, FR, date);
            && a.sequence >= 1
            && !HasDocument(l.transactions, a.key, a.sequence)
            && (a.sequence > 1 ==> HasDocument(l.transactions, a.key, a.sequence - 1))
            && a.seriesCode == FormatSeriesCode(FR, a.key.year)
            && a.series == l.series[a.key := Series(a.seriesCode, a.sequence)]
            && (a.key in l.series ==> a.sequence == l.series[a.key].nextNumber + 1)
            && (a.key !in l.series ==> a.sequence == 1)
  {
    hide YearOf, FormatSeriesCode;
    var a := AllocateInvoiceNumber(l.series, organizationId, FR, date);
    forall r
      ensures !Holds(l.transactions, r, a.key, a.sequence)
    {
      if r in l.transactions && l.transactions[r].invoice.Some? {
        assert DocumentOk(l.transactions[r], l.series);
      }
    }
  }

  /** The claim, the number, the split and the signature of a settled payment, read off the row it leaves. */
  ghost predicate PaidRow(l: Ledger, r: Reference, paid: Transaction, key: SeriesKey, n: int, sign: Signer) {
    && r in l.transactions
    && l.transactions[r].status.Open()
    && RowOk(paid) && paid.status.Succeeded?
    && paid.organizationId == l.transactions[r].organizationId
    && paid.amountCents == l.transactions[r].amountCents
    && !EventTaken(l.transactions, paid.providerEventId.value)
    && paid.invoice.value.series == key && paid.invoice.value.sequence == n
    && key.organizationId == paid.organizationId
    && !HasDocument(l.transactions, key, n)
    && n == (if key in l.series then l.series[key].nextNumber + 1 else 1)
    && DocumentOk(paid, l.series[key := Series(FormatSeriesCode(FR, key.year), n)])
    && SignedOver(paid, PreviousHashOf(PreviousInvoiceHash(l.transactions, key, n)), sign)
  }

  /** A claimed payment with a known plan always settles: its number is free and its amount splits. */
  lemma SettleShape(l: Ledger, e: PaymentEvent, now: int, config: Config, sign: Signer)
    returns (paid: Transaction, key: SeriesKey, n: nat)
    requires Inv(l, sign)
    requires e.reference in l.transactions && l.transactions[e.reference].status.Open()
    requires l.transactions[e.reference].planId in l.plans
    requires !EventTaken(l.transactions, e.eventId)
    ensures PaidRow(l, e.reference, paid, key, n, sign)
    ensures paid.providerEventId == Some(e.eventId)
    ensures var organizationId := paid.organizationId;
            var existing := CurrentPeriod(l.subscriptions, organizationId);
            var interval := l.plans[l.transactions[e.reference].planId].interval;
            var period := Extend(existing, now, interval);
            Settle(l, e, now, config, sign) == StepResult(
              l.(transactions := l.transactions[e.reference := paid],
                 subscriptions := l.subscriptions[organizationId := Subscription(paid.planId, period)],
                 series := l.series[key := Series(FormatSeriesCode(FR, key.year), n)],
                 extensions := l.extensions
                               + [Extension(organizationId, e.reference, now, existing, interval, period)]),
              EventApplied)
  {
    hide YearOf, FormatSeriesCode, Extend, PreviousInvoiceHash, PreviousHashOf, BuildInvoiceCanonical, IsoString,
         InvoiceQrPayload, HasDocument;
    var t := l.transactions[e.reference];
    assert RowOk(t);
    Vat.BreakdownConserves(t.amountCents, config.ivaRateBps);
    NextNumberIsFree(l, t.organizationId, e.paidAt, sign);
    paid := Settle(l, e, now, config, sign).ledger.transactions[e.reference];
    var a := AllocateInvoiceNumber(l.series, t.organizationId, FR, e.paidAt);
    key, n := a.key, a.sequence;
    assert paid.invoice.Some? && paid.invoice.value.series == key;
    var previous := PreviousHashOf(PreviousInvoiceHash(l.transactions, key, n));
    assert SignedOver(paid, previous, sign);
  }

  lemma SettledDocuments(l: Ledger, r: Reference, paid: Transaction, key: SeriesKey, n: nat, sign: Signer)
    requires Inv(l, sign) && PaidRow(l, r, paid, key, n, sign)
    ensures DocumentsOk(l.(transactions := l.transactions[r := paid],
                           series := l.series[key := Series(FormatSeriesCode(FR, key.year), n)]))
  {
    hide FormatSeriesCode, YearOf, BuildInvoiceNumber, SignedOver, PreviousHashOf, PreviousInvoiceHash, HasDocument,
         Vat.Breakdown, Chained;
    var after := l.transactions[r := paid];
    var series := l.series[key := Series(FormatSeriesCode(FR, key.year), n)];
    forall q | q in after && after[q].invoice.Some?
      ensures DocumentOk(after[q], series)
    {
      if q != r {
        assert DocumentOk(l.transactions[q], l.series);
      }
    }
  }

  lemma DocumentSurvives(before: Transactions, r: Reference, t: Transaction, key: SeriesKey, n: int)
    requires r in before ==> before[r].invoice.None?
    ensures HasDocument(before, key, n) ==> HasDocument(before[r := t], key, n)
    ensures Holds(before[r := t], r, key, n) ==> HasDocument(before[r := t], key, n)
  {
    if HasDocument(before, key, n) {
      var q :| Holds(before, q, key, n);
      assert Holds(before[r := t], q, key, n);
    }
  }

  lemma SettledNumbers(l: Ledger, r: Reference, paid: Transaction, key: SeriesKey, n: nat, sign: Signer)
    requires Inv(l, sign) && PaidRow(l, r, paid, key, n, sign)
    ensures NumbersDense(l.(transactions := l.transactions[r := paid],
                            series := l.series[key := Series(FormatSeriesCode(FR, key.year), n)]))
  {
    hide FormatSeriesCode, SignedOver, Chained, HasDocument, CountsOk, NumbersUnique, EventsUnique, ExtensionsOk;
    var after := l.transactions[r := paid];
    var series := l.series[key := Series(FormatSeriesCode(FR, key.year), n)];
    assert key.documentType == FR && n >= 1;
    assert RowOk(l.transactions[r]);
    assert Holds(after, r, key, n);
    forall k, j | k in series && 1 <= j <= series[k].nextNumber
      ensures HasDocument(after, k, j)
    {
      DocumentSurvives(l.transactions, r, paid, k, j);
    }
  }

  lemma SettledUnique(l: Ledger, r: Reference, paid: Transaction, key: SeriesKey, n: nat, sign: Signer)
    requires Inv(l, sign) && PaidRow(l, r, paid, key, n, sign)
    ensures EventsUnique(l.transactions[r := paid])
    ensures NumbersUnique(l.transactions[r := paid])
  {
    hide FormatSeriesCode, DocumentOk, SignedOver, Chained, NumbersDense;
    var after := l.transactions[r := paid];
    forall p, q, k, j | Holds(after, p, k, j) && Holds(after, q, k, j)
      ensures p == q
    {
      assert p != r ==> Holds(l.transactions, p, k, j);
      assert q != r ==> Holds(l.transactions, q, k, j);
    }
  }

  lemma SettledChain(l: Ledger, r: Reference, paid: Transaction, key: SeriesKey, n: nat, sign: Signer)
    requires Inv(l, sign) && PaidRow(l, r, paid, key, n, sign)
    ensures ChainOk(l.transactions[r := paid], sign)
  {
    hide SignedOver, PreviousHashOf, DocumentOk;
    var before, after := l.transactions, l.transactions[r := paid];
    assert RowOk(before[r]);
    forall q | q in after && after[q].invoice.Some?
      ensures Chained(after, q, sign)
    {
      if q == r {
        var j := n - 1;
        if n > 1 {
          assert HasDocument(before, key, j);
          var p :| Holds(before, p, key, j) && PreviousInvoiceHash(before, key, n) == before[p].invoice.value.hash;
          assert Holds(after, p, key, j);
        } else {
          assert PreviousInvoiceHash(before, key, n) == "";
          EmptyPrevious();
        }
      } else {
        assert Chained(before, q, sign);
        SameLink(before, after, q, sign);
      }
    }
  }

  lemma EmptyPrevious()
    ensures PreviousHashOf("") == ""
  {
  }

  lemma PaidGrows(transactions: Transactions, r: Reference, paid: Transaction, o: OrganizationId)
    requires r in transactions && !transactions[r].status.Succeeded?
    requires paid.status.Succeeded?
    ensures |PaidOf(transactions[r := paid], o)|
            == |PaidOf(transactions, o)| + (if paid.organizationId == o then 1 else 0)
  {
    assert r !in PaidOf(transactions, o);
    if o == paid.organizationId {
      assert PaidOf(transactions[r := paid], o) == PaidOf(transactions, o) + {r};
    } else {
      assert PaidOf(transactions[r := paid], o) == PaidOf(transactions, o);
    }
  }

  /** The paid set, the numbers handed out and the extensions of the payer all grow by one. */
  lemma SettledCounts(l: Ledger, r: Reference, paid: Transaction, key: SeriesKey, row: Series, x: Extension)
    requires CountsOk(l)
    requires r in l.transactions && !l.transactions[r].status.Succeeded? && paid.status.Succeeded?
    requires row.nextNumber == if key in l.series then l.series[key].nextNumber + 1 else 1
    requires x.organizationId == paid.organizationId == key.organizationId
    ensures CountsOk(l.(transactions := l.transactions[r := paid], series := l.series[key := row],
                        extensions := l.extensions + [x]))
  {
    hide PaidOf, NumbersIssued;
    forall o: OrganizationId
      ensures |PaidOf(l.transactions[r := paid], o)| == NumbersIssued(l.series[key := row], o)
              == ExtensionsOf(l.extensions + [x], o)
    {
      assert (l.extensions + [x])[..|l.extensions|] == l.extensions;
      CountAllocation(l.series, key, row, o);
      PaidGrows(l.transactions, r, paid, o);
    }
  }

  lemma CountAllocation(series: map<SeriesKey, Series>, key: SeriesKey, row: Series, o: OrganizationId)
    requires row.nextNumber == if key in series then series[key].nextNumber + 1 else 1
    ensures NumbersIssued(series[key := row], o)
            == NumbersIssued(series, o) + (if key.organizationId == o then 1 else 0)
  {
    var after := series[key := row];
    var keys := SeriesOf(series, o) - {key};
    SumCongruent(keys, CounterOf(series), CounterOf(after));
    if key.organizationId == o {
      assert SeriesOf(after, o) == keys + {key};
      SumAdd(keys, CounterOf(after), key);
      if key in series {
        assert SeriesOf(series, o) == keys + {key};
        SumAdd(keys, CounterOf(series), key);
      } else {
        assert SeriesOf(series, o) == keys;
      }
    } else {
      assert SeriesOf(after, o) == keys == SeriesOf(series, o);
    }
  }

  lemma SettleKeepsInv(l: Ledger, e: PaymentEvent, now: int, config: Config, sign: Signer)
    requires Inv(l, sign)
    requires e.reference in l.transactions && l.transactions[e.reference].status.Open()
    requires !EventTaken(l.transactions, e.eventId)
    ensures Inv(Settle(l, e, now, config, sign).ledger, sign)
  {
    if l.transactions[e.reference].planId in l.plans {
      var paid, key, n := SettleShape(l, e, now, config, sign);
      hide Settle;
      var m := Settle(l, e, now, config, sign).ledger;
      SettledKeepsInv(l, m, e.reference, paid, key, n, m.extensions[|l.extensions|], sign);
    }
  }

  lemma SettledKeepsInv(l: Ledger, m: Ledger, r: Reference, paid: Transaction, key: SeriesKey, n: nat, x: Extension,
                        sign: Signer)
    requires Inv(l, sign) && PaidRow(l, r, paid, key, n, sign)
    requires m.transactions == l.transactions[r := paid]
    requires m.series == l.series[key := Series(FormatSeriesCode(FR, key.year), n)]
    requires m.extensions == l.extensions + [x]
    requires x.organizationId == paid.organizationId && x.period == Extend(x.existing, x.at, x.interval)
    ensures Inv(m, sign)
  {
    hide FormatSeriesCode, Extend, SignedOver, DocumentOk, DocumentsOk, NumbersDense, ChainOk, CountsOk, NumbersUnique,
         EventsUnique, HasDocument;
    SettledDocuments(l, r, paid, key, n, sign);
    SettledNumbers(l, r, paid, key, n, sign);
    SettledUnique(l, r, paid, key, n, sign);
    SettledChain(l, r, paid, key, n, sign);
    SettledCounts(l, r, paid, key, m.series[key], x);
    OnlyTables(m, l.(transactions := m.transactions, series := m.series));
    OnlyTables(m, l.(transactions := m.transactions, series := m.series, extensions := m.extensions));
  }

  /** These conditions read three tables only. */
  lemma OnlyTables(l: Ledger, m: Ledger)
    requires l.transactions == m.transactions && l.series == m.series
    ensures DocumentsOk(l) <==> DocumentsOk(m)
    ensures NumbersDense(l) <==> NumbersDense(m)
    ensures l.extensions == m.extensions ==> (CountsOk(l) <==> CountsOk(m))
  {
  }

  /* ---------------------------------------------------------------------- */
  /* Every step, every run                                                  */
  /* ---------------------------------------------------------------------- */

  lemma WebhookKeepsInv(l: Ledger, e: PaymentEvent, now: int, config: Config, sign: Signer)
    requires Inv(l, sign)
    ensures Inv(ApplyPaymentEvent(l, e, now, config, sign).ledger, sign)
  {
    hide Settle, Inv;
    if e.reference in l.transactions {
      var t := l.transactions[e.reference];
      assert RowOk(t) by { RowsOk(l, sign); }
      if t.providerEventId == Some(e.eventId) || t.status.Succeeded? || EventTaken(l.transactions, e.eventId) {
      } else if !e.succeeded {
        var failed := t.(status := Failed, providerEventId := Some(e.eventId), providerReference := e.providerReference,
                         failureReason := Some("reported_failed_by_provider"));
        WriteUnpaidRow(l, e.reference, failed, sign);
      } else if t.status.Open() {
        SettleKeepsInv(l, e, now, config, sign);
      }
    }
  }

  lemma RowsOk(l: Ledger, sign: Signer)
    requires Inv(l, sign)
    ensures forall r :: r in l.transactions ==> RowOk(l.transactions[r])
  {
  }

  lemma DoKeepsInv(l: Ledger, step: Step, sign: Signer)
    requires Inv(l, sign)
    ensures Inv(Do(l, step, sign).ledger, sign)
  {
    hide Inv, ApplyPaymentEvent, AddInterval, StartCheckout, SubmitProof;
    match step
    case Webhook(event, now, config) => WebhookKeepsInv(l, event, now, config, sign);
    case Checkout(_, _, _, _, _, _) => CheckoutKeepsInv(l, step, sign);
    case Proof(_, _, _, _) => ProofKeepsInv(l, step, sign);
    case _ => WriteOtherTables(l, Do(l, step, sign).ledger, sign);
  }

  lemma CheckoutKeepsInv(l: Ledger, step: Step, sign: Signer)
    requires Inv(l, sign) && step.Checkout?
    ensures Inv(Do(l, step, sign).ledger, sign)
  {
    hide Inv;
    var after := Do(l, step, sign).ledger;
    if step.reference !in l.transactions && step.reference in after.transactions {
      WriteUnpaidRow(l, step.reference, after.transactions[step.reference], sign);
    }
  }

  lemma ProofKeepsInv(l: Ledger, step: Step, sign: Signer)
    requires Inv(l, sign) && step.Proof?
    ensures Inv(Do(l, step, sign).ledger, sign)
  {
    hide Inv;
    RowsOk(l, sign);
    var after := Do(l, step, sign).ledger;
    if after.transactions != l.transactions {
      WriteUnpaidRow(l, step.reference, after.transactions[step.reference], sign);
    }
  }

  /** The invariant holds in every reachable state: after any sequence of steps from the empty ledger. */
  lemma {:induction false} RunKeepsInv(l: Ledger, steps: seq<Step>, sign: Signer)
    requires Inv(l, sign)
    ensures Inv(Run(l, steps, sign), sign)
    decreases |steps|
  {
    hide Inv, Do;
    if steps == [] {
    } else {
      DoKeepsInv(l, steps[0], sign);
      RunKeepsInv(Do(l, steps[0], sign).ledger, steps[1..], sign);
    }
  }

  lemma ReachableInv(steps: seq<Step>, sign: Signer)
    ensures Inv(Run(EMPTY, steps, sign), sign)
  {
    hide Inv, Run;
    EmptyLedger(sign);
    RunKeepsInv(EMPTY, steps, sign);
  }
}

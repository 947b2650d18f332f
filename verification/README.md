# FilaZero, verified

A Dafny model of the parts of FilaZero that move money, numbers, messages and permissions, with proofs of what they
keep. Check everything with `dafny verify dfyconfig.toml`.

- **Billing ledger.** `BillingLedger` has the tables and each database transaction as one step: checkout, proof upload,
  webhook, plan assignment, trial, catalogue changes. `BillingInvariant` is an inductive invariant that links
  transactions, series counters, paid periods and the hash chain; `BillingTheorems`, `BillingRecords`, `PaidTime` and
  `SubscriptionHistory` say what it means over whole runs, and `ProofRace` and `LateWrites` when an update that was
  decided earlier is one step at all. `BillingService` has the same operations as methods that update the tables one
  statement after another, each proved to be its step. `CustomerLedger` and `CustomerService` are the end-customer
  counterpart, and `Webhooks` routes events over both.
- **Documents and money.** `Agt` (numbers, signed string), `IsoTime`, `Vat` (rounded split), `Calendar` and
  `BillingRules` (intervals over the Gregorian calendar of ECMA-262).
- **Bank QR code.** `Polynomials` and `Crc16`, `TlvCodec`, `Iban`, `Utf8` and `BankQr`, after the EMV QR Code
  Specification (Merchant-Presented Mode, section 4.7.3) and ISO 13616-1 with MOD 97-10 of ISO/IEC 7064.
- **Notification outbox.** `Outbox` is a transition system of concurrent workers, `OutboxHistory` says what a row
  tells about the run, `OutboxLiveness` shows that nothing starves, `OutboxService` has the methods.
- **Rate limiter.** `RateLimit`: a pruned counter table against an unpruned log.
- **CSV export.** `Csv` and `AnalyticsExport`, read back by a reader after RFC 4180 section 2, by position and, in
  `AnalyticsLabels`, by label.
- **Members and weekly figures.** `Membership`, `MemberHistory` and `WeekBuckets`.
- `Wrappers`, `Sums`, `Division` and `Text` are shared.

Signatures (RSA or HMAC) are an uninterpreted function from the signed string to a hash, one function for a run.
References, event ids, clocks, provider answers and upload checks are inputs of the steps. Integers are unbounded.

Where the code does not do what one might expect, the model follows the code and the exact condition is proved:

- adding a month or a year does not keep the order of instants (`BillingRules.MonthlyKeepsOrderIff`,
  `BillingRules.JanuaryOvertaken`, `BillingRules.YearlyKeepsOrderIff`);
- an assignment can shorten a paid period (`PaidTime.AssignmentShortensIff`), and after a concrete run it does, at every
  instant (`PaidTime.AssignmentTakesPaidMonth`);
- a proof of payment written after its payment was confirmed breaks the numbering (`ProofRace.UploadIsAtomicIff`,
  `ProofRace.NumberLostFromEmpty`); a failure written late takes a payment back and leaves its period
  (`LateWrites.LateFailureIff`, `LateWrites.LateCheckoutFailureIff`), and customers' payments fare the same
  (`LateWrites.CustomerUploadIsAtomicIff`, `LateWrites.CustomerFailureIff`);
- more than the maximum can pass within one window length, unless it starts with a window (`RateLimit.LimitHoldsIff`),
  and at most twice the maximum does (`RateLimit.AtMostTwiceMax`, `RateLimit.TwiceMaxReached`);
- a row is taken up and settled again unless a worker stopped between provider call and update
  (`Outbox.CanSettleIff`, `Outbox.LostIff`, `Outbox.AbandonedRow`);
- an organization can lose its last manager when two guards count before either writes
  (`Membership.LateWriteKeepsManagerIff`, `Membership.BothManagersGone`);
- two report cells can be written alike (`Csv.GuardCollidesIff`);
- the weekly windows rely on a zone that is one hour ahead of UTC where they look (`WeekBuckets.WindowsTileIff`), which
  holds from nine weeks after it settles there (`WeekBuckets.TilesSince`).

A comment in the schema (`prisma/schema.prisma:652`) calls the series column the next number to allocate; the code
stores the last one allocated, and so does the model.

## Model

| member | source | states |
|---|---|---|
| `BillingInvariant.ReachableInv` | src/server/billing/billing.service.ts:424-603 | In every state that any sequence of checkouts, proofs, webhooks, assignments, trials and catalogue changes can reach from the empty tables, the whole ledger invariant holds: rows, event ids, documents, numbering, hash chain and counts |
| `BillingInvariant.DoKeepsInv` | src/server/billing/billing.service.ts:424-591 | Each single step of the ledger keeps the invariant, whichever reply it gives |
| `BillingInvariant.NextNumberIsFree` | src/server/billing/invoice-series.service.ts:27-50 | The number handed out next is one past the counter, no transaction holds it, and the document before it exists |
| `BillingInvariant.SettleShape` | src/server/billing/billing.service.ts:466-571 | A claimed payment with a known plan always settles, and leaves exactly the claimed row, the extended period, the incremented series and one history record |
| `BillingTheorems.NumbersHaveNoGapsOrRepeats` | src/server/billing/billing.service.ts:512-571 | In every reachable state a series has a document for a number exactly when the number is in 1 to its counter, and each number is on one transaction only |
| `BillingTheorems.PaymentsNumbersAndPeriodsAgree` | src/server/billing/billing.service.ts:466-571 | For each organization the number of succeeded payments, of invoice numbers handed out and of periods bought are the same in every reachable state |
| `BillingTheorems.InvoiceNumbersUnique` | src/server/billing/agt.ts:87-93 | No two transactions of one organization print the same invoice number, over all document types and years |
| `BillingTheorems.PrintedNumbers` | src/server/billing/billing.service.ts:512-571 | On every document of every reachable state the number is FR, the year in which the payment was made, a slash, and the position in the series in at least six digits; what stands before the slash is the stored and signed code |
| `BillingTheorems.PaidTotalsConserved` | src/server/billing/billing.service.ts:525-571 | Net plus VAT, summed over all paid invoices of an organization, is what it paid, in every reachable state |
| `BillingTheorems.ReachableSeriesVerify` | src/server/billing/invoice-series.service.ts:56-67 | Listed in order, the documents of any series of any reachable state pass an audit that checks each against the first four characters of the hash before it |
| `BillingTheorems.SeriesListing` | src/server/billing/invoice-series.service.ts:56-67 | Every series of every reachable state has such a listing, one document for each number from 1 to its counter, and it passes the audit |
| `BillingTheorems.HashesBindFields` | src/server/billing/billing.service.ts:530-571 | If text fields hold no separator, two listings with the same hashes that both pass the audit agree in all eleven signed fields and in the instant of issue, or else contain two different signed strings with one hash |
| `BillingTheorems.WebhookRejectedIff` | src/server/billing/billing.service.ts:424-511 | On reachable states a webhook is refused exactly for an unknown reference, an event id used by another payment, or a missing plan |
| `BillingTheorems.OnlyPaymentsTakeNumbers` | src/server/billing/billing.service.ts:436-479 | A step that pays takes one number and one period; abandoned, failed and replayed payments and all other steps take none |
| `BillingRecords.ChargedAsOffered` | src/server/billing/billing.service.ts:140-168 | A row exists exactly when a checkout opened it, and through any later run, catalogue changes included, it owes the price its plan had at that checkout |
| `BillingRecords.CheckoutWrites` | src/server/billing/billing.service.ts:140-200 | Every reply of a checkout and every column it writes: the offered terms, the tax number, and the provider's reference or the first 300 characters of its message; nothing is written without an offer |
| `BillingRecords.TermsNeverChange` | src/server/billing/billing.service.ts:424-591 | Organization, plan, method, amount and currency of a row never change after it is created |
| `BillingRecords.TaxIdSticks` | src/server/billing/billing.service.ts:527-529 | A tax number given at checkout stays on the row over every run, whatever the organization's profile says |
| `BillingRecords.ReachableRecords` | src/server/billing/proof.service.ts:55-109 | Over every run an open payment is under review exactly when a proof was uploaded, card payments never have one, failures have a reason of at most 300 characters, and only paid rows carry a document |
| `BillingRecords.UploadAcceptedIff` | src/server/billing/proof.service.ts:78-109 | A proof is accepted exactly for an open transaction of the organization itself that is not paid by card; each refusal has its own reason, another organization's transaction is not found, and only status and time change |
| `ProofRace.UploadIsAtomicIff` | src/server/billing/proof.service.ts:78-109 | With any steps of the ledger between the read and the write of a proof upload, the write leaves the row under review; it is the atomic upload, and keeps the invariant, exactly when the row is still open |
| `ProofRace.LateWriteLosesNumber` | src/server/billing/proof.service.ts:103-109 | If a payment is confirmed between read and write, a second event buys a second period and number for the one checkout, and no document holds the first number |
| `ProofRace.NumberLostFromEmpty` | src/server/billing/proof.service.ts:78-109 | That happens in a run from the empty tables, at every instant: one checkout, two periods bought, one number without a document |
| `LateWrites.LateFailureIff` | src/server/billing/billing.service.ts:434-453 | The failure update of a webhook that judged an older row is refused exactly when the index on events refuses it; otherwise it keeps the invariant, and is what the event would do now, exactly when the row is not paid by then. On a paid row it leaves one more period than payments |
| `LateWrites.LateCheckoutFailureIff` | src/server/billing/billing.service.ts:174-181 | The mark of a refused checkout keeps the invariant exactly when no event has paid the row in the meantime |
| `LateWrites.CustomerUploadIsAtomicIff` | src/server/customer/customer-proof.service.ts:35-70 | With any steps of the customer ledger between read and write, a customer's upload is atomic and keeps the invariant exactly when the payment is still open at the write |
| `LateWrites.CustomerFailureIff` | src/server/customer/customer-subscription.service.ts:368-376 | A late update of a customer's payment to failed keeps the invariant exactly when the payment has not succeeded |
| `BillingRecords.IssuedCodeReads` | src/server/billing/agt.ts:143-156 | The printed QR text splits back into its eight values when none of them contains the separator |
| `BillingService.Service.StartCheckout` | src/server/billing/billing.service.ts:127-218 | The statement-by-statement checkout is the atomic checkout step, recorded failure included, and keeps the invariant |
| `BillingService.Service.SubmitPaymentProof` | src/server/billing/proof.service.ts:67-130 | The proof upload is its step: refusals in the order of the code, status from pending to under review, nothing else changed |
| `BillingService.Service.AssignPlan` | src/server/billing/billing.service.ts:357-407 | Assignment replaces the period and nothing else, and keeps the invariant |
| `BillingService.Service.AttachTrial` | src/server/billing/subscription.service.ts:146-167 | A trial is attached only where there is no subscription |
| `BillingService.Service.ExtendSubscription` | src/server/billing/billing.service.ts:484-510 | The new period continues the running one, or starts now |
| `BillingService.Service.AllocateInvoiceNumber` | src/server/billing/invoice-series.service.ts:27-50 | The upsert leaves a series row that holds the number it returned and touches no other series |
| `BillingService.Service.PreviousInvoiceHash` | src/server/billing/invoice-series.service.ts:56-67 | The stored hash of the document one number below, or the empty string |
| `BillingService.Service.StoreInvoice` | src/server/billing/billing.service.ts:525-571 | Reads the hash before, signs and stores the document on the claimed row, and writes no other row |
| `BillingService.Service.SettleClaim` | src/server/billing/billing.service.ts:466-571 | Claim, extension, number, split, chain, signature and store together are the settle step; on an error every table is back as it was |
| `BillingService.Service.ApplyPaymentEvent` | src/server/billing/billing.service.ts:424-591 | The imperative webhook handler refines the atomic step on all events and keeps the invariant |
| `PaidTime.PeriodStep` | src/server/billing/billing.service.ts:374-394 | A period changes by being paid for, by an assignment or by the first trial, to the stated value, and by nothing else |
| `PaidTime.SubscriptionStep` | src/server/billing/billing.service.ts:366-396 | The whole subscription after any step, plan and period: that of the payment, of the assignment or of the first trial, and otherwise as before |
| `PaidTime.AssignmentReplies` | src/server/billing/billing.service.ts:366-375 | An assignment is accepted exactly for an existing organization and an active plan, a trial exactly if there is a trial plan |
| `SubscriptionHistory.PlanIsLastGiven` | src/server/billing/billing.service.ts:377-391 | Over every run an organization has the plan of its last payment, last assignment or first trial, whichever wrote last, and no plan if there was none |
| `SubscriptionHistory.OperationalIff` | src/server/billing/subscription.service.ts:24-33 | In every reachable state an organization is operational exactly before the end of its current period |
| `SubscriptionHistory.NotOperational` | src/server/billing/subscription.service.ts:24-33 | A subscription that is missing, over, past due, cancelled or expired is not operational |
| `PaidTime.PaidTimeNeverLost` | src/server/billing/billing.service.ts:484-510 | Over any run without an assignment the end moves by at least 28 days for every payment |
| `PaidTime.EarlyRenewalsIterate` | src/server/billing/billing.service.ts:488-491 | n monthly renewals made before expiry, interleaved with anything but an assignment, give exactly the n-fold month, 28n to 31n days later, and the organization is operational until then |
| `PaidTime.AssignmentShortensIff` | src/server/billing/billing.service.ts:374-394 | An assignment shortens a period exactly when more time is left than the days of the current month, or of the year that starts with it |
| `PaidTime.AssignmentTakesPaidMonth` | src/server/billing/billing.service.ts:374-394 | At every instant: after two paid monthly checkouts the period ends two months later, and an assignment of the same plan leaves one month |
| `PaymentProtocol.ExtendNeverLoses` | src/server/billing/subscription.service.ts:24-33 | A payment is worth at least 28 days from the later of now and the old end, and the subscription is operational until the new end |
| `CustomerLedger.RunCustomersKeepsInv` | src/server/customer/customer-subscription.service.ts:353-439 | Over any run each customer has as many succeeded payments as months bought, events are unique and the price is the plan's |
| `CustomerLedger.CustomerPeriodStep` | src/server/customer/customer-subscription.service.ts:393-417 | A customer's period starts with the thirty-day trial or a payment, and changes by a payment only |
| `CustomerLedger.CustomerTimeNeverLost` | src/server/customer/customer-subscription.service.ts:393-417 | Over any run the end moves by at least 28 days for every month bought |
| `CustomerLedger.EarlyMonthsIterate` | src/server/customer/customer-subscription.service.ts:393-417 | n months paid before expiry give exactly the n-fold month, 28n to 31n days later, and the customer is operational until then |
| `CustomerLedger.CustomerCheckoutWrites` | src/server/customer/customer-subscription.service.ts:174-240 | A customer's checkout owes 2000 kwanzas under a fresh reference, and records the provider's reference or the first 300 characters of its message |
| `CustomerLedger.CustomerUploadAcceptedIff` | src/server/customer/customer-proof.service.ts:35-70 | A customer's proof is accepted exactly for an open payment of their own, by card too, and changes only status and time |
| `CustomerLedger.CustomerEventCases` | src/server/customer/customer-subscription.service.ts:353-420 | What an event does and answers is decided by the status and the event of the payment, and it writes only its own columns |
| `CustomerService.Service.StartCheckout` | src/server/customer/customer-subscription.service.ts:174-251 | The imperative checkout is the atomic step and keeps the invariant |
| `CustomerService.Service.SubmitProof` | src/server/customer/customer-proof.service.ts:29-70 | The proof upload is its step; card payments are accepted here |
| `CustomerService.Service.AttachTrial` | src/server/customer/customer-subscription.service.ts:90-102 | A second trial changes nothing |
| `CustomerService.Service.ApplyPaymentEvent` | src/server/customer/customer-subscription.service.ts:353-439 | The imperative webhook handler refines the atomic step on all events |
| `Webhooks.SystemKeepsInv` | src/server/billing/billing.service.ts:644-652 | Over every admissible run of both ledgers both invariants hold and no reference is in both |
| `Webhooks.LedgersAreIndependent` | src/server/billing/billing.service.ts:644-652 | Every step of a run is a step of exactly one ledger, and each ledger ends as its own steps leave it |
| `Webhooks.ReachableSystem` | src/server/billing/billing.service.ts:644-652 | From the empty tables on, in every reachable state both invariants hold, decided references keep their status and open ones get the status of the first event delivered for them |
| `Webhooks.CatchIsIdle` | src/server/billing/billing.service.ts:653-672 | When webhooks run one after another, the handler of unique violations never turns an error into a success |
| `Webhooks.FirstEventDecides` | src/server/billing/billing.service.ts:436-479 | However webhooks, replays, proofs and other steps interleave, the first event delivered for an open reference decides its status for good, and without one it stays open |
| `Webhooks.ClosedStaysClosed` | src/server/billing/billing.service.ts:436-479 | Succeeded and failed are absorbing over every run |
| `Webhooks.LaterEventsAreInert` | src/server/customer/customer-subscription.service.ts:363-391 | An event for a decided reference takes no number, buys no time and changes no other row of either ledger |
| `Agt.InvoiceNumberInjective` | src/server/billing/agt.ts:80-93 | A printed number determines document type, year and position |
| `Agt.InvoiceNumberText` | src/server/billing/agt.ts:80-93 | A number is printed exactly for positive positions, as the two letters of the type, the year without leading zeros, a slash, and the position filled up to six digits |
| `Agt.CanonicalDecodesIff` | src/server/billing/agt.ts:118-132 | The signed string decodes to its eleven fields exactly when no text field contains a semicolon |
| `Agt.CanonicalInjective` | src/server/billing/agt.ts:118-132 | Separator-free documents with the same signed string are equal |
| `Agt.CanonicalText` | src/server/billing/agt.ts:118-132 | The signed string is the eleven values in their order with a semicolon between two |
| `Agt.PreviousHashMeaning` | src/server/billing/agt.ts:134-137 | White space in a stored hash does not count, wherever it is, and a hash without any is cut after four characters |
| `IsoTime.IsoReadsBack` | src/server/billing/billing.service.ts:539 | The printed instant determines the instant, for years of any size and sign |
| `Vat.BreakdownConserves` | src/server/billing/agt.ts:64-73 | The split succeeds exactly on non-negative amounts, both parts are non-negative and add up to the gross |
| `Vat.SubtotalIsNearest` | src/server/billing/agt.ts:71 | The subtotal is within half a cent of gross divided by one plus the rate, halves rounded up |
| `Vat.SplitMonotone` | src/server/billing/agt.ts:64-73 | Net and VAT both grow with the gross, neither faster than it |
| `Vat.ReapplyingVat` | src/server/billing/agt.ts:64-73 | Putting the VAT back on the subtotal gives the gross within one cent |
| `Vat.SplittingIntoParts` | src/server/billing/agt.ts:64-73 | Invoicing an amount in n parts moves the summed subtotal by at most (n + 1) / 2 cents |
| `Calendar.CivilOf` | src/server/billing/billing.rules.ts:14-22 | Every day number has a valid civil date, whose day number it is |
| `Calendar.CivilRoundTrip` | src/server/billing/billing.rules.ts:14-22 | Every valid civil date is the date of its own day number, so the two functions are inverse bijections |
| `Calendar.CalendarCounts` | src/server/billing/billing.rules.ts:14-22 | The calendar is the one that counts dates one day after the other from 1 January 1970 |
| `Calendar.MonthLengths` | src/server/billing/billing.rules.ts:14-22 | The months have their usual lengths, with the leap days of the Gregorian rule |
| `BillingRules.AddIntervalToDate` | src/server/billing/billing.rules.ts:14-22 | The mutating copy computes the interval and leaves its argument alone |
| `BillingRules.MonthlyAddsDaysOfMonth` | src/server/billing/billing.rules.ts:19 | For every instant a month adds exactly the days of that instant's own month and keeps the time of day |
| `BillingRules.YearlyAddsLeapDay` | src/server/billing/billing.rules.ts:17 | For every instant a year adds 366 days exactly when a 29 February lies between the first of its month and the first of that month next year, else 365 |
| `BillingRules.MonthlyOverflow` | src/server/billing/billing.rules.ts:19 | The result is the same date of the next month if it exists and otherwise spills into the month after |
| `BillingRules.JanuaryThirtyFirst` | src/server/billing/billing.rules.ts:19 | A month from 31 January is 3 March, or 2 March in leap years |
| `BillingRules.MonthlyKeepsOrderIff` | src/server/billing/billing.rules.ts:14-22 | Adding a month keeps an instant no later than every later one exactly when its date exists in the next month, or it is the first midnight after those dates |
| `BillingRules.JanuaryOvertaken` | src/server/billing/billing.rules.ts:19 | In every year and at every time of 31 January: the midnight after it is later, and one month later it is earlier |
| `BillingRules.YearlyKeepsOrderIff` | src/server/billing/billing.rules.ts:17 | Adding a year keeps an instant no later than every later one exactly when it is not on 29 February after midnight |
| `BillingRules.MonthlyIterateBounds` | src/server/billing/billing.rules.ts:14-22 | n months are 28n to 31n days |
| `Crc16.CrcIsRemainder` | src/server/billing/qr-payment.ts:58-68 | For every byte string the register is the remainder by x^16 + x^12 + x^5 + 1 of the message started with FFFF, and no other polynomial of degree below 16 is |
| `Crc16.Crc16Ccitt` | src/server/billing/qr-payment.ts:58-68 | The two nested loops over a sixteen-bit number, with polynomial 0x1021 and start 0xFFFF, return four hexadecimal digits, most significant first, that read as the remainder of the input |
| `Crc16.HexReadsBack` | src/server/billing/qr-payment.ts:67 | A reader of hexadecimal digits, most significant first, gets the register from the printed text |
| `Crc16.PrintedIsRemainder` | src/server/billing/qr-payment.ts:58-68 | The binary digits of the printed number are the coefficients of the remainder |
| `Crc16.VerifiesIff` | src/server/billing/qr-payment.ts:130-135 | A payload verifies exactly when it has eight characters or more and its last four, in capital or small letters, read as the remainder of the others |
| `Crc16.BurstDetected` | src/server/billing/qr-payment.ts:58-68 | Two messages that differ only within sixteen consecutive bits have the same register exactly when they are equal |
| `Crc16.ByteChangesDetected` | src/server/billing/qr-payment.ts:58-68 | Changing one byte or two adjacent bytes changes the checksum |
| `Crc16.ChangedPayloadFails` | src/server/billing/qr-payment.ts:130-135 | If a payload verifies, the payload with one byte or two adjacent bytes of its body changed does not |
| `Polynomials.RemainderUnique` | src/server/billing/qr-payment.ts:58-68 | A polynomial has at most one remainder by the generator |
| `TlvCodec.ParseTlv` | src/server/billing/qr-payment.ts:100-127 | The cursor loop terminates on every byte string with the elements or the first error of the recursive parser |
| `TlvCodec.ParseIff` | src/server/billing/qr-payment.ts:85-127 | A payload parses to some elements exactly when it is their concatenated encodings: printing and parsing are inverse both ways |
| `TlvCodec.ParseFails` | src/server/billing/qr-payment.ts:100-127 | A payload that does not parse is encoded elements and a rest, and the error says why and where the rest starts with no element |
| `Utf8.TextRoundTrip` | src/server/billing/qr-payment.ts:100-126 | Decoding the UTF-8 bytes of a text gives the text |
| `Utf8.SliceBytes` | src/server/billing/qr-payment.ts:270-271 | A text cut to n code units takes at most 3n bytes |
| `Utf8.UnitsCount` | src/server/billing/qr-payment.ts:270-271 | Characters of the basic plane count as one code unit and the others as two |
| `Utf8.SliceMeaning` | src/server/billing/qr-payment.ts:270-271 | Text of at most n code units is not cut, and longer text keeps exactly n |
| `Utf8.SliceKeepsPrefix` | src/server/billing/qr-payment.ts:270-271 | What is kept is a prefix, with a replacement character where the cut goes through a character |
| `BankQr.NameAndCityFit` | src/server/billing/qr-payment.ts:270-271 | Name and city stay within 25 and 15 code units, and are printed whole when they fit |
| `Iban.Mod97` | src/server/billing/qr-payment.ts:188-192 | The digit loop computes the fold modulo 97 |
| `Iban.ToAngolaIban` | src/server/billing/qr-payment.ts:158-173 | The imperative derivation is its specification: an IBAN as it is, an account number promoted, anything else normalised |
| `Iban.IsValidAngolaIban` | src/server/billing/qr-payment.ts:180-193 | The imperative validation is its specification |
| `Iban.SeparatorsIgnored` | src/server/billing/qr-payment.ts:142-144 | White space and hyphens anywhere in an account number change nothing |
| `Iban.CaseIgnored` | src/server/billing/qr-payment.ts:142-144 | Small letters are read as capital ones, by the derivation and by the check |
| `Iban.ValidIff` | src/server/billing/qr-payment.ts:158-186 | For every value: it is valid exactly when, normalized, it is a bare account number or an IBAN whose account, then 1024, then check digits form a number that is 1 modulo 97 |
| `Iban.CanonicalFormStable` | src/server/billing/qr-payment.ts:158-173 | Deriving the canonical form of any value twice is deriving it once |
| `Iban.BbanPromotes` | src/server/billing/qr-payment.ts:158-173 | Every 21-digit account number is promoted to an IBAN that validates and ends with it |
| `Iban.CheckValueUnique` | src/server/billing/qr-payment.ts:165-169 | Among the check values 02 to 98 exactly the derived one validates |
| `Iban.ValidIffCheck` | src/server/billing/qr-payment.ts:180-193 | Any two check digits validate exactly when they are the derived value modulo 97 |
| `Iban.SingleErrorRejected` | src/server/billing/qr-payment.ts:180-193 | A valid IBAN is rejected after any single-digit substitution or swap of two distinct neighbours in its account number |
| `BankQr.BuiltPayloadParses` | src/server/billing/qr-payment.ts:245-276 | Every built payload and both its templates parse, tag 00 is first and 63 last, and the checksum verifies |
| `BankQr.BuiltPayloadReadsBack` | src/server/billing/qr-payment.ts:245-276 | A reader of any built payload gets back the acquirer, IBAN, reference, category, amount, and trimmed and cut name and city, and its checks of format, method, currency, country and checksum pass |
| `BankQr.AmountReadsBack` | src/server/billing/qr-payment.ts:217-222 | Formatting fails exactly on negative amounts and loses no cent |
| `BankQr.BuildSucceedsIff` | src/server/billing/qr-payment.ts:224-281 | Building throws exactly when the account is invalid, name or reference is blank, the amount is negative, or an element would exceed 99 bytes, stated as bounds on the inputs |
| `BankQr.BuildErrors` | src/server/billing/qr-payment.ts:224-281 | The error names the first of these that is wrong |
| `BankQr.PayloadChecksum` | src/server/billing/qr-payment.ts:275-276 | Every payload ends with 6304 and four hexadecimal digits that read as the remainder of everything before them |
| `BankQr.CheckoutNeverThrows` | src/server/billing/qr-payment.ts:284-290 | For the inputs that checkouts give, building fails only if the account is invalid, name or reference is blank, or the amount is negative |
| `Outbox.EnqueueRespectsConsent` | src/server/notifications/notification-dispatch.service.ts:43-62 | A new row appears exactly for the consented channels of a reachable recipient, pending with no attempts, and existing rows are untouched |
| `Outbox.EnqueueIdempotent` | src/server/notifications/notification-dispatch.service.ts:43-62 | Enqueuing a notification again changes nothing |
| `Outbox.RunKeepsInv` | src/server/notifications/notification-dispatch.service.ts:75-159 | Under any interleaving of claims, provider calls, updates, stops at any point and arrivals no row is held by two workers, held rows are processing, and attempts fit the status |
| `Outbox.CallsBounded` | src/server/notifications/notification-dispatch.service.ts:130-158 | Even when workers stop between call and update, provider calls for a row never exceed its attempts, which never exceed three; pending rows have at most two and failed rows exactly three |
| `Outbox.TerminalRowsFrozen` | src/server/notifications/notification-dispatch.service.ts:111-159 | Sent, skipped and failed rows never change again |
| `Outbox.OutOfReachFrozen` | src/server/notifications/notification-dispatch.service.ts:75-96 | A row that is not pending and that no worker holds never changes again over any run, abandoned rows included |
| `Outbox.CanSettleIff` | src/server/notifications/notification-dispatch.service.ts:75-159 | In every state that keeps the invariant a row can still be settled by some steps exactly when it is settled already, or is pending, or a worker holds it |
| `Outbox.LostIff` | src/server/notifications/notification-dispatch.service.ts:75-159 | In every reachable state a row is lost to the outbox exactly when it is in processing and no worker holds it |
| `Outbox.AbandonedRow` | src/server/notifications/notification-dispatch.service.ts:130-141 | A worker that stops between call and update leaves a row that was called for, is being processed and stays so, whatever comes later |
| `OutboxHistory.RowStep` | src/server/notifications/notification-dispatch.service.ts:75-159 | The life of a row: each status it can take, after which step, and with which counts; a failure update is final at the third attempt and gives the row back before |
| `OutboxHistory.SentWasAccepted` | src/server/notifications/notification-dispatch.service.ts:130-141 | Over every run a row is SENT only if the provider accepted a message for it in some call of the run |
| `OutboxHistory.FailedIff` | src/server/notifications/notification-dispatch.service.ts:143-153 | In every reachable state a row is FAILED exactly when three failures were recorded for it, and its attempts and calls are the claims and calls of the run |
| `Outbox.DeliveryIsRun` | src/server/notifications/notification-dispatch.service.ts:111-159 | A delivery that is not cut short, with each of its four outcomes, is a sequence of these steps |
| `OutboxLiveness.NoStarvation` | src/server/notifications/notification-dispatch.service.ts:143-169 | A row with k live rows not newer than it is terminal after 3(k + 1) drains, however many newer rows arrive |
| `OutboxLiveness.AllSettle` | src/server/notifications/notification-dispatch.service.ts:162-169 | Without arrivals all n rows are terminal after 3n drains |
| `OutboxLiveness.DrainIsRun` | src/server/notifications/notification-dispatch.service.ts:162-169 | Every whole drain of the liveness argument is a run of the transition system by one worker |
| `OutboxService.Dispatcher.EnqueueNotificationDeliveries` | src/server/notifications/notification-dispatch.service.ts:43-62 | The loop inserts what the specification inserts and counts the new rows |
| `OutboxService.Dispatcher.ClaimPending` | src/server/notifications/notification-dispatch.service.ts:75-96 | The claimed rows are as many of the oldest pending rows as the limit allows, each returned once with its incremented attempts |
| `OutboxService.Dispatcher.Deliver` | src/server/notifications/notification-dispatch.service.ts:111-159 | One delivery writes its own row only and reports sent exactly when the message was accepted and recorded; a refusal gives FAILED from the third attempt on and PENDING before it, a missing configuration SKIPPED |
| `OutboxService.Dispatcher.DrainPendingDeliveries` | src/server/notifications/notification-dispatch.service.ts:162-169 | The loop delivers every claimed row once and returns how many messages of its batch were accepted and recorded, as one drain of the liveness argument |
| `RateLimit.RetryAfterIsLeast` | src/server/security/rate-limit.rules.ts:86-93 | Retry-After is in 1 to the window length and is the least whole number of seconds that reaches the next window |
| `RateLimit.WindowIsMultiple` | src/server/security/rate-limit.rules.ts:71-74 | A window starts at the one whole multiple of its length that is not after the instant and less than a length before it |
| `RateLimit.RunKeepsInv` | src/server/security/rate-limit.service.ts:56-87 | With nondecreasing time, the pruned table agrees with the unpruned log of requests on every window that is not over |
| `RateLimit.FirstMaxAllowed` | src/server/security/rate-limit.service.ts:61-87 | Over every run a request is allowed exactly when fewer than max earlier requests of its key fell in its window |
| `RateLimit.CallerTold` | src/server/security/rate-limit.service.ts:61-87 | Over every run each caller is told its number in the window, the limit, the start of the next window, and the least number of seconds until then |
| `RateLimit.PrunedTable` | src/server/security/rate-limit.service.ts:56-59 | Over every run the table after pruning has exactly the windows that had a request and are not over |
| `RateLimit.AtMostTwiceMax` | src/server/security/rate-limit.service.ts:61-87 | Any half-open interval of one window length, aligned or not, allows at most twice the maximum |
| `RateLimit.AlignedAtMostMax` | src/server/security/rate-limit.service.ts:61-87 | Every ordered run allows at most max requests of a key in an interval that is a window of the limiter |
| `RateLimit.TwiceMaxReached` | src/server/security/rate-limit.service.ts:61-87 | For every rule, every time before it and every interval of one window length that starts elsewhere, a run allows exactly twice the maximum in it |
| `RateLimit.LimitHoldsIff` | src/server/security/rate-limit.service.ts:61-87 | All ordered runs allow at most max requests of a key in one window length exactly when that interval starts with a window, or the rule allows nothing |
| `RateLimit.EnforceStops` | src/server/security/rate-limit.service.ts:93-102 | Checks are consumed in order up to the first refusal, whose waiting time is reported; all are consumed exactly when none refuses |
| `RateLimit.Limiter.ConsumeRateLimit` | src/server/security/rate-limit.service.ts:61-87 | The method updates the counter and prunes as its step says, and answers by the count of the log |
| `RateLimit.Limiter.PruneExpired` | src/server/security/rate-limit.service.ts:56-59 | Pruning removes only rows of windows that are over |
| `RateLimit.Limiter.EnforceRateLimits` | src/server/security/rate-limit.service.ts:93-102 | The loop with its early exit is the recursive specification |
| `Csv.FileReadsBack` | src/server/organizations/analytics-export.ts:79-87 | For arbitrary cells an RFC 4180 reader gets back every record, blank lines included, each cell equal to its guarded text |
| `Csv.NoFormulas` | src/server/organizations/analytics-export.ts:81 | In no cell that a reader sees is the first visible character one of =, +, @ and - |
| `Csv.GuardedIff` | src/server/organizations/analytics-export.ts:81 | A text is written with a quote in front exactly when its first visible character is one of these four, and unchanged otherwise |
| `Csv.GuardCollidesIff` | src/server/organizations/analytics-export.ts:81 | Two texts are written alike exactly when they are equal or one is the other, a formula, with the quote already in front |
| `AnalyticsExport.BuildAnalyticsCsv` | src/server/organizations/analytics-export.ts:93-246 | After the byte order mark, a reader that splits the file at blank records recovers the whole report, for any names, labels and figures: every count, rate, optional average, peak, series and the instant of generation, with names as the guard leaves them |
| `AnalyticsExport.SectionsRead` | src/server/organizations/analytics-export.ts:99-245 | Splitting what is read at blank records gives exactly the eleven sections, because no written record is blank |
| `AnalyticsLabels.TotalsLabelled` | src/server/organizations/analytics-export.ts:100-122 | Every identification value and total stands in the file beside its own label |
| `AnalyticsLabels.PeaksLabelled` | src/server/organizations/analytics-export.ts:124-141 | So do the busiest day and hour, or empty cells if there is none |
| `AnalyticsLabels.SeriesLabelled` | src/server/organizations/analytics-export.ts:143-159 | Every entry by day, week, status and hour carries the label of its section, and each section its heading |
| `AnalyticsLabels.PerformanceLabelled` | src/server/organizations/analytics-export.ts:161-225 | Every row of the branch, queue and staff tables carries its label, name and figures in the order of the heading |
| `AnalyticsExport.RateReadsBack` | src/server/organizations/analytics-export.ts:75-77 | A printed rate has two decimals and gives its basis points back |
| `Membership.PromotedRoleIsLeast` | src/server/organizations/member.rules.ts:13-18 | The promoted role is the least one at least the current role and at least the membership's |
| `Membership.RolesDominateAndGrow` | src/server/organizations/member.service.ts:125-165 | Over every run a user's global role is at least each of their membership roles, and never decreases |
| `MemberHistory.RoleIsHighestGiven` | src/server/organizations/member.service.ts:125-165 | Over every run a user's global role is exactly the highest that sign-up, registration or a membership ever gave them |
| `MemberHistory.AdministratorsSignedUp` | src/server/organizations/member.service.ts:137-151 | Nobody is an administrator who was not one at sign-up |
| `MemberHistory.MembershipIsLastGiven` | src/server/organizations/member.service.ts:154-220 | Over every run each column of a membership has the last value that an accepted step gave it |
| `MemberHistory.AddAcceptedIff` | src/server/organizations/member.service.ts:107-165 | An addition is accepted exactly when organization, plan, branch, counter, person and place allow it |
| `MemberHistory.AddErrors` | src/server/organizations/member.service.ts:107-165 | A refused addition gives the error of the first of these that does not |
| `MemberHistory.UpdateAcceptedIff` | src/server/organizations/member.service.ts:188-220 | An update is accepted exactly when it is of the organization's own member, its branch and counter belong, its place is free, and an active manager is left |
| `MemberHistory.ConflictIff` | src/server/organizations/member.service.ts:205-283 | The guard refuses exactly the updates and removals that would take the last active manager away |
| `Membership.ManagerRemains` | src/server/organizations/member.service.ts:205-244 | Over every run an organization that has an active manager keeps one |
| `Membership.RegisteredStaysManaged` | src/server/organizations/self-registration.service.ts:139-196 | An organization registered by its owner has an active manager ever after |
| `Membership.LateWriteKeepsManagerIff` | src/server/organizations/member.service.ts:205-233 | An update or removal that takes a manager leaves one exactly when there is another at the time of the write, whatever was counted before it |
| `Membership.BothManagersGone` | src/server/organizations/member.service.ts:259-292 | Two managers, both counted by the guards of two removals before either is written, leave none |
| `Membership.PlacesStayDistinct` | prisma/migrations/0001_init/migration.sql:320-326 | Over every run nobody has two memberships for one branch of an organization, nor two without a branch |
| `Membership.MemberService.AddMember` | src/server/organizations/member.service.ts:98-178 | The imperative method is the add step, errors in the order of the code |
| `Membership.MemberService.UpdateMember` | src/server/organizations/member.service.ts:180-257 | The imperative method is the update step, guard and promotion included |
| `Membership.MemberService.RemoveMember` | src/server/organizations/member.service.ts:259-292 | The imperative method is the remove step, guard included |
| `WeekBuckets.DayStartIff` | src/server/platform/monitoring.service.ts:32-41 | For any zone, the code finds the start of the Luanda day exactly when its year is at least 100 and it starts one hour ahead of UTC |
| `WeekBuckets.WeekStartIff` | src/server/platform/monitoring.service.ts:54-59 | For any zone, the start of the week is the Monday of clocks one hour ahead exactly when the printed date is in that week |
| `WeekBuckets.WindowsTileIff` | src/server/platform/monitoring.service.ts:155-163 | For any zone, the eight windows start on Luanda Mondays, are contiguous, have distinct keys and end with the week of now, exactly when the zone is one hour ahead at their eight Mondays and shows dates of the same weeks at the eight instants they are computed from |
| `WeekBuckets.TilesSince` | src/server/platform/monitoring.service.ts:155-163 | From nine weeks after a zone settles on one hour ahead the windows are right at every instant, whatever the zone was before |
| `WeekBuckets.MeanTimeMisses` | src/server/platform/monitoring.service.ts:29-41 | On 6 January 1850 at 23:05 UTC they are not: with any mean time less than 55 minutes ahead the last window ends before that instant |
| `WeekBuckets.KeyIsMonday` | src/server/platform/monitoring.service.ts:155-163 | Where the windows are right, the key of each is the date of its Monday, which begins where the window does |
| `WeekBuckets.Bucketize` | src/server/platform/monitoring.service.ts:99-113 | For arbitrary buckets, overlapping ones included, the nested loops count for each key the dates whose first enclosing bucket has that key |
| `WeekBuckets.CountKeyIsBruteForce` | src/server/platform/monitoring.service.ts:99-113 | Over disjoint buckets with distinct keys that is the brute-force count of each bucket |
| `WeekBuckets.TotalIsSpan` | src/server/platform/monitoring.service.ts:99-113 | Counts over consecutive windows add up to the count over their whole span |
| `WeekBuckets.GrowthByWeek` | src/server/platform/monitoring.service.ts:155-189 | Whenever the windows tile, the reported weekly counts are brute-force counts over the whole table although only later rows are queried, and they sum to the rows of the eight weeks |

## Left out

Billing:

- Permission checks, the audit log, receipts and e-mail, PDF documents, voiding of invoices and refunds.
- Parsing of webhook bodies (`normalizePaymentEvent`), signature verification and its tolerance window: an event is an
  input. RSA, HMAC and the random part of references stay uninterpreted.
- Checkouts, proof uploads and webhooks are single steps of the two ledgers. `ProofRace` and `LateWrites` say exactly
  when an update that names only its row (`src/server/billing/proof.service.ts:103`,
  `src/server/billing/billing.service.ts:174` and `:446`, and the same in `src/server/customer/`) may be taken for the
  end of its step; the other theorems are about runs in which it may.
- The embedded card checkout (`startCardIntent`), which is a checkout by card with a configuration check before it.
- A checkout reference is assumed not to be in the other ledger, because references are random; `Webhooks.Admissible`
  says so.
- Row ids, `subscriptionId`, proof rows, metadata, `cancelledAt`, and the deletion of an organization, whose cascade
  removes rows.
- The range of JavaScript dates, invalid dates, and floating point in `Math.round` and `toFixed`: instants and amounts
  are exact integers.
- BillingTheorems.HashesBindFields: needs separator-free text fields, because the canonical string is ambiguous
  otherwise (`Agt.CanonicalDecodesIff`).
- PaidTime.PaidTimeNeverLost: excludes assignments, which can shorten a period (`PaidTime.AssignmentShortensIff`).

QR codes:

- Byte order marks and malformed UTF-8 in what `parseTlv` decodes, lone surrogates in inputs, and the length test of
  `verifyEmvCoChecksum` on texts whose bytes and code units differ: payloads are byte sequences.
- Upper-casing of letters outside ASCII in `normalizeIban`.

Outbox, limiter, members:

- OutboxLiveness.NoStarvation: assumes that drains run one after another, that workers do not stop half way and that
  the last update of a row succeeds, because no code takes a row back from processing (`Outbox.AbandonedRow`). The
  safety theorems of `Outbox` do not assume this.
- An update that reports an error has not been applied; a database that commits and then loses the connection is not
  modelled. The methods of `OutboxService` are whole drains, so an exception that ends one early is in `Outbox` only.
- Rows removed with their notification, message texts, phone normalisation and the providers themselves.
- RateLimit.AtMostTwiceMax: one rule for each key, and the application's and the database's clock as one nondecreasing
  time.
- Hashing of keys and the table of limits.
- Membership.ManagerRemains: a count of managers and the write that follows it are one step;
  `Membership.LateWriteKeepsManagerIff` says when they may be two. Passwords, e-mail normalisation and the plan gate,
  which is an input because reactivation does not pass through it.

Figures:

- Bucket keys are kept as civil dates; their text is not modelled.
- Month buckets, which depend on the time zone of the host, and all other figures of the overview.
- The offsets of Africa/Luanda are an input, any function that stays within a day; which offsets the time zone database
  has is not modelled.
- The CSV file name, translations, and the queries behind the report.

Not modelled at all: the ticket queue, pages, server-sent events, and the services that only store what they are given.

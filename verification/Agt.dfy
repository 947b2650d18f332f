/** Invoice numbering and the canonical string that is signed (agt.ts). */
module Agt {
  import opened Wrappers
  import opened Text

  datatype DocumentType = FT | FR

  function TypeText(documentType: DocumentType): string {
    match documentType
    case FT => "FT"
    case FR => "FR"
  }

  /* ---------------------------------------------------------------------- */
  /* Series and numbering                                                   */
  /* ---------------------------------------------------------------------- */

  function FormatSeriesCode(documentType: DocumentType, year: int): string {
    TypeText(documentType) + IntText(year)
  }

  function BuildInvoiceNumber(seriesCode: string, sequence: int): Result<string, string> {
    if sequence < 1 then Failure("Invoice sequence must be a positive integer")
    else Success(seriesCode + "/" + PadStart(Decimal(sequence), 6))
  }

  lemma SeriesCodeInjective(d: DocumentType, y: int, e: DocumentType, z: int)
    requires FormatSeriesCode(d, y) == FormatSeriesCode(e, z)
    ensures d == e && y == z
  {
    assert FormatSeriesCode(d, y)[1] == (if d.FT? then 'T' else 'R');
    assert FormatSeriesCode(e, z)[1] == (if e.FT? then 'T' else 'R');
    assert FormatSeriesCode(d, y)[2..] == IntText(y);
    assert FormatSeriesCode(e, z)[2..] == IntText(z);
    IntRoundTrip(y);
    IntRoundTrip(z);
  }

  /** A printed number names its document type, year and position: no two documents of a taxpayer share one. */
  lemma InvoiceNumberInjective(d: DocumentType, y: int, m: int, e: DocumentType, z: int, n: int)
    requires BuildInvoiceNumber(FormatSeriesCode(d, y), m).Success?
    requires BuildInvoiceNumber(FormatSeriesCode(d, y), m) == BuildInvoiceNumber(FormatSeriesCode(e, z), n)
    ensures d == e && y == z && m == n
  {
    NumberParts(d, y, m);
    NumberParts(e, z, n);
    SeriesCodeInjective(d, y, e, z);
    PaddedRoundTrip(m, 6);
    PaddedRoundTrip(n, 6);
  }

  /**
   How a number is printed: the letters of the type, the year without leading zeros, a slash, and the position in at
   least six digits, zeros in front only to fill them up.
   */
  lemma InvoiceNumberText(d: DocumentType, y: int, n: int) returns (year: string, digits: string)
    ensures BuildInvoiceNumber(FormatSeriesCode(d, y), n).Success? <==> n >= 1
    ensures FormatSeriesCode(d, y) == (if d.FT? then "FT" else "FR") + year
    ensures IsIntText(year) && IntValue(year) == y && (y != 0 ==> year[0] != '0')
    ensures n >= 1 ==>
              && BuildInvoiceNumber(FormatSeriesCode(d, y), n).value
                 == (if d.FT? then "FT" else "FR") + year + "/" + digits
              && AllDigits(digits) && DecimalValue(digits) == n
              && |digits| >= 6 && (|digits| > 6 ==> digits[0] != '0')
  {
    hide Decimal;
    year := IntText(y);
    IntRoundTrip(y);
    if y >= 0 { NoLeadingZero(y); }
    digits := "";
    if n >= 1 {
      digits := PadStart(Decimal(n), 6);
      PaddedRoundTrip(n, 6);
      NoLeadingZero(n);
    }
  }

  lemma NumberParts(d: DocumentType, y: int, n: int)
    requires n >= 1
    ensures Split(BuildInvoiceNumber(FormatSeriesCode(d, y), n).value, '/')
            == [FormatSeriesCode(d, y), PadStart(Decimal(n), 6)]
  {
    hide IntText, Decimal;
    PaddedRoundTrip(n, 6);
    var code, digits := FormatSeriesCode(d, y), PadStart(Decimal(n), 6);
    assert '/' !in code;
    SplitConcat(code, '/', digits);
    SplitWhole(digits, '/');
  }

  /* ---------------------------------------------------------------------- */
  /* Canonical string                                                       */
  /* ---------------------------------------------------------------------- */

  datatype SignatureInput = SignatureInput(
    issuerTaxId: string,
    customerTaxId: string,
    documentType: DocumentType,
    seriesCode: string,
    sequence: int,
    issuedAt: string,
    subtotalCents: int,
    vatCents: int,
    totalCents: int,
    currency: string,
    previousHash: string)

  const SEPARATOR: char := ';'

  function CanonicalFields(i: SignatureInput): (fields: seq<string>)
    ensures |fields| == 11
  {
    [i.issuerTaxId, i.customerTaxId, TypeText(i.documentType), i.seriesCode, IntText(i.sequence), i.issuedAt,
     IntText(i.subtotalCents), IntText(i.vatCents), IntText(i.totalCents), i.currency, i.previousHash]
  }

  function BuildInvoiceCanonical(i: SignatureInput): string {
    Join(CanonicalFields(i), [SEPARATOR])
  }

  /** What is signed: the eleven values in this order, a semicolon between two. */
  lemma CanonicalText(i: SignatureInput)
    ensures BuildInvoiceCanonical(i)
            == i.issuerTaxId + ";" + i.customerTaxId + ";" + (if i.documentType.FT? then "FT" else "FR") + ";"
               + i.seriesCode + ";" + IntText(i.sequence) + ";" + i.issuedAt + ";" + IntText(i.subtotalCents) + ";"
               + IntText(i.vatCents) + ";" + IntText(i.totalCents) + ";" + i.currency + ";" + i.previousHash
  {
    hide IntText;
    var f := CanonicalFields(i);
    JoinOneMore(f[..1], ";", f[1]);
    JoinOneMore(f[..2], ";", f[2]);
    JoinOneMore(f[..3], ";", f[3]);
    JoinOneMore(f[..4], ";", f[4]);
    JoinOneMore(f[..5], ";", f[5]);
    JoinOneMore(f[..6], ";", f[6]);
    JoinOneMore(f[..7], ";", f[7]);
    JoinOneMore(f[..8], ";", f[8]);
    JoinOneMore(f[..9], ";", f[9]);
    JoinOneMore(f[..10], ";", f[10]);
    Prefixes(f);
  }

  lemma Prefixes(f: seq<string>)
    ensures forall k :: 0 <= k < |f| ==> f[..k] + [f[k]] == f[..k + 1]
    ensures f[..|f|] == f
  {
  }

  /** The first four characters of a stored hash that are not white space. */
  function PreviousHashOf(hash: string): (r: string)
    ensures |r| <= 4 && forall c :: c in r ==> c in hash && !IsSpace(c)
  {
    Take(Without(hash, IsSpace), 4)
  }

  /** Blanks do not count, wherever they are, and a hash without blanks is cut after four characters. */
  lemma PreviousHashMeaning(a: string, blank: char, b: string)
    requires IsSpace(blank)
    ensures PreviousHashOf(a + [blank] + b) == PreviousHashOf(a + b)
    ensures (forall c :: c in a ==> !IsSpace(c)) ==> PreviousHashOf(a) == if |a| <= 4 then a else a[..4]
  {
    WithoutConcat(a, b, IsSpace);
    WithoutConcat(a, [blank], IsSpace);
    WithoutConcat(a + [blank], b, IsSpace);
    assert Without([blank], IsSpace) == [];
    assert Without(a, IsSpace) + [] == Without(a, IsSpace);
    if forall c :: c in a ==> !IsSpace(c) {
      NothingDropped(a, IsSpace);
    }
  }

  function ParseType(s: string): Option<DocumentType> {
    if s == "FT" then Some(FT) else if s == "FR" then Some(FR) else None
  }

  /** Reads a canonical string back; what an auditor does with the printed values. */
  function DecodeCanonical(s: string): Option<SignatureInput> {
    var f := Split(s, SEPARATOR);
    if |f| == 11 && ParseType(f[2]).Some? && IsIntText(f[4]) && IsIntText(f[6]) && IsIntText(f[7]) && IsIntText(f[8])
    then Some(SignatureInput(f[0], f[1], ParseType(f[2]).value, f[3], IntValue(f[4]), f[5],
                             IntValue(f[6]), IntValue(f[7]), IntValue(f[8]), f[9], f[10]))
    else None
  }

  predicate SeparatorFree(i: SignatureInput) {
    && SEPARATOR !in i.issuerTaxId && SEPARATOR !in i.customerTaxId && SEPARATOR !in i.seriesCode
    && SEPARATOR !in i.issuedAt && SEPARATOR !in i.currency && SEPARATOR !in i.previousHash
  }

  lemma CanonicalSplits(i: SignatureInput)
    ensures if SeparatorFree(i) then Split(BuildInvoiceCanonical(i), SEPARATOR) == CanonicalFields(i)
            else |Split(BuildInvoiceCanonical(i), SEPARATOR)| > 11
  {
    hide IntText, Join, Split;
    var fields := CanonicalFields(i);
    SplitJoin(fields, SEPARATOR);
    if SeparatorFree(i) {
      assert forall p :: p in fields ==> SEPARATOR !in p;
    } else {
      assert fields[0] in fields && fields[1] in fields && fields[3] in fields;
      assert fields[5] in fields && fields[9] in fields && fields[10] in fields;
    }
  }

  /** The canonical string decodes to its eleven fields exactly when no text field contains the separator. */
  lemma CanonicalDecodesIff(i: SignatureInput)
    ensures DecodeCanonical(BuildInvoiceCanonical(i)) == Some(i) <==> SeparatorFree(i)
  {
    hide IntText, IntValue, IsIntText, Split, BuildInvoiceCanonical, SeparatorFree;
    CanonicalSplits(i);
    IntRoundTrip(i.sequence);
    IntRoundTrip(i.subtotalCents);
    IntRoundTrip(i.vatCents);
    IntRoundTrip(i.totalCents);
  }

  /** Separator-free documents with the same canonical string agree in every field. */
  lemma CanonicalInjective(i: SignatureInput, j: SignatureInput)
    requires SeparatorFree(i) && SeparatorFree(j)
    requires BuildInvoiceCanonical(i) == BuildInvoiceCanonical(j)
    ensures i == j
  {
    hide DecodeCanonical, BuildInvoiceCanonical, SeparatorFree;
    CanonicalDecodesIff(i);
    CanonicalDecodesIff(j);
    assert Some(i) == Some(j);
  }

  /** Payload of the QR code printed on the document. */
  function InvoiceQrPayload(i: SignatureInput, invoiceNumber: string, hash: string): string {
    Join([i.issuerTaxId, i.customerTaxId, TypeText(i.documentType), invoiceNumber, i.issuedAt,
          IntText(i.totalCents), i.currency, hash], "|")
  }
}

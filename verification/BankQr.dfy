/** The EMVCo payload of a bank transfer (buildAngolaBankQr in qr-payment.ts). */
module BankQr {
  import opened Wrappers
  import opened Text
  import opened Polynomials
  import opened Crc16
  import opened TlvCodec
  import opened Iban
  import opened Utf8

  datatype QrInput = QrInput(
    iban: string,
    merchantName: string,
    merchantCity: Option<string>,
    amountCents: Option<int>,
    reference: string,
    acquirerGui: Option<string>,
    merchantCategoryCode: Option<string>)

  datatype QrError = InvalidIban | NameRequired | ReferenceRequired | BadAmount | BadElement(error: TlvError)

  /** 123456 becomes 1234.56. */
  function AmountText(cents: nat): Bytes {
    DecimalBytes(cents / 100) + "." + TwoDigitText(cents % 100)
  }

  function DecimalBytes(n: nat): (s: Bytes)
    ensures s == Decimal(n)
  {
    Decimal(n)
  }

  function FormatQrAmount(cents: int): Result<Bytes, QrError> {
    if cents < 0 then Failure(BadAmount) else Success(AmountText(cents))
  }

  function AssertQrInput(i: QrInput): Option<QrError> {
    if !IsValidValue(i.iban) then Some(InvalidIban)
    else if Trim(i.merchantName) == "" then Some(NameRequired)
    else if Trim(i.reference) == "" then Some(ReferenceRequired)
    else if i.amountCents.Some? && i.amountCents.value < 0 then Some(BadAmount)
    else None
  }

  /** A tag and the value to print under it. */
  datatype Field = Field(tag: Bytes, value: Bytes)

  /** [tlv(..), tlv(..), ..].join(""): the elements in order, or the error of the first that tlv refuses. */
  function JoinTlv(fields: seq<Field>): Result<Bytes, TlvError> {
    if fields == [] then Success([])
    else
      var first :- Tlv(fields[0].tag, fields[0].value);
      var rest :- JoinTlv(fields[1..]);
      Success(first + rest)
  }

  /** Template 26: the acquirer when there is one, the account and the reference. */
  function DomesticFields(i: QrInput): seq<Field> {
    (if i.acquirerGui.GetOr("") == "" then [] else [Field("00", EncodeText(i.acquirerGui.value))])
    + [Field("01", EncodeText(ToAngolaIbanValue(i.iban))), Field("02", EncodeText(i.reference))]
  }

  /** Template 62: the reference as bill number and as reference label. */
  function AdditionalFields(i: QrInput): seq<Field> {
    [Field("01", EncodeText(i.reference)), Field("05", EncodeText(i.reference))]
  }

  function AmountFields(i: QrInput): seq<Field> {
    if i.amountCents.Some? && i.amountCents.value >= 0 then [Field("54", AmountText(i.amountCents.value))] else []
  }

  function NameText(i: QrInput): string {
    Slice(Trim(i.merchantName), 25)
  }

  function CityText(i: QrInput): string {
    Slice(Trim(i.merchantCity.GetOr("Luanda")), 15)
  }

  /** The format's limits of 25 and 15 for name and city are kept, and text within them is printed whole. */
  lemma NameAndCityFit(i: QrInput)
    ensures UnitsOf(NameText(i)) <= 25 && UnitsOf(CityText(i)) <= 15
    ensures UnitsOf(Trim(i.merchantName)) <= 25 ==> NameText(i) == Trim(i.merchantName)
    ensures UnitsOf(Trim(i.merchantCity.GetOr("Luanda"))) <= 15 ==> CityText(i) == Trim(i.merchantCity.GetOr("Luanda"))
  {
    hide Trim, Slice, UnitsOf;
    SliceMeaning(Trim(i.merchantName), 25);
    SliceMeaning(Trim(i.merchantCity.GetOr("Luanda")), 15);
  }

  function HeadFields(i: QrInput, domestic: Bytes): seq<Field> {
    [Field("00", "01"), Field("01", if i.amountCents.Some? then "12" else "11"), Field("26", domestic),
     Field("52", EncodeText(i.merchantCategoryCode.GetOr("0000"))), Field("53", "973")]
  }

  function TailFields(i: QrInput, additional: Bytes): seq<Field> {
    [Field("58", "AO"), Field("59", EncodeText(NameText(i))), Field("60", EncodeText(CityText(i))),
     Field("62", additional)]
  }

  /** Everything before the checksum, in order. */
  function BodyFields(i: QrInput, domestic: Bytes, additional: Bytes): seq<Field> {
    HeadFields(i, domestic) + AmountFields(i) + TailFields(i, additional)
  }

  function Body(i: QrInput): Result<Bytes, TlvError> {
    var domestic :- JoinTlv(DomesticFields(i));
    var additional :- JoinTlv(AdditionalFields(i));
    JoinTlv(BodyFields(i, domestic, additional))
  }

  /** Appends tag 63 with the checksum of everything before it, its own tag and length included. */
  function WithChecksum(body: Bytes): Bytes {
    var covered := body + "63" + "04";
    covered + HexText(Crc(covered))
  }

  function BuildAngolaBankQr(i: QrInput): Result<Bytes, QrError> {
    if AssertQrInput(i).Some? then Failure(AssertQrInput(i).value)
    else
      match Body(i)
      case Success(body) => Success(WithChecksum(body))
      case Failure(error) => Failure(BadElement(error))
  }

  function TryBuildAngolaBankQr(i: QrInput): Option<Bytes> {
    match BuildAngolaBankQr(i)
    case Success(payload) => Some(payload)
    case Failure(_) => None
  }

  /* ---------------------------------------------------------------------- */
  /* Joining and parsing                                                    */
  /* ---------------------------------------------------------------------- */

  function ElementOf(f: Field): Element {
    Element(f.tag, |f.value|, f.value)
  }

  function ElementsOf(fields: seq<Field>): (elements: seq<Element>)
    ensures |elements| == |fields| && forall k :: 0 <= k < |fields| ==> elements[k] == ElementOf(fields[k])
  {
    seq(|fields|, k requires 0 <= k < |fields| => ElementOf(fields[k]))
  }

  predicate Tagged(fields: seq<Field>) {
    forall k :: 0 <= k < |fields| ==> TwoDigits(fields[k].tag)
  }

  predicate Fitting(fields: seq<Field>) {
    forall k :: 0 <= k < |fields| ==> |fields[k].value| <= 99
  }

  /** Joining succeeds exactly when every value fits in 99 bytes, and parsing then gives the fields back. */
  lemma {:induction false} JoinIff(fields: seq<Field>)
    requires Tagged(fields)
    ensures JoinTlv(fields).Success? <==> Fitting(fields)
    ensures Fitting(fields) ==>
              AllWellFormed(ElementsOf(fields)) && JoinTlv(fields) == Success(EncodeAll(ElementsOf(fields)))
    decreases |fields|
  {
    hide Tlv, Encode;
    if fields == [] {
    } else {
      if |fields[0].value| <= 99 { EncodeIsTlv(ElementOf(fields[0])); }
      JoinIff(fields[1..]);
      assert ElementsOf(fields) == [ElementOf(fields[0])] + ElementsOf(fields[1..]);
      assert Fitting(fields) <==> |fields[0].value| <= 99 && Fitting(fields[1..]) by {
        assert forall k :: 1 <= k < |fields| ==> fields[k] == fields[1..][k - 1];
      }
    }
  }

  lemma JoinParses(fields: seq<Field>)
    requires Tagged(fields) && JoinTlv(fields).Success?
    ensures Parse(JoinTlv(fields).value) == Success(ElementsOf(fields))
  {
    hide JoinTlv, Parse;
    JoinIff(fields);
    ParseIff(JoinTlv(fields).value, ElementsOf(fields));
  }

  /** The checksum is one more element, and the payload it completes verifies. */
  lemma ChecksumElement(fields: seq<Field>, body: Bytes)
    requires Tagged(fields) && JoinTlv(fields) == Success(body)
    ensures var crc := HexText(Crc(body + "63" + "04"));
            && Parse(WithChecksum(body)) == Success(ElementsOf(fields) + [ElementOf(Field("63", crc))])
            && (body != [] ==> VerifyChecksum(WithChecksum(body)))
  {
    hide JoinTlv, Crc, Parse, VerifyChecksum;
    var crc := HexText(Crc(body + "63" + "04"));
    var last := ElementOf(Field("63", crc));
    JoinIff(fields);
    ChecksumEncodes(crc);
    TlvCodec.EncodeConcat(ElementsOf(fields), [last]);
    assert WithChecksum(body) == body + ("63" + "04" + crc);
    ParseIff(WithChecksum(body), ElementsOf(fields) + [last]);
    if body != [] { ChecksumVerifies(body); }
  }

  lemma ChecksumEncodes(crc: Bytes)
    requires |crc| == 4
    ensures AllWellFormed([ElementOf(Field("63", crc))])
    ensures EncodeAll([ElementOf(Field("63", crc))]) == "63" + "04" + crc
  {
    var last := ElementOf(Field("63", crc));
    assert TwoDigitText(4) == "04";
    assert [last][1..] == [];
    assert Encode(last) == "63" + "04" + crc == EncodeAll([last]);
  }

  lemma ChecksumVerifies(body: Bytes)
    requires body != []
    ensures VerifyChecksum(WithChecksum(body))
  {
    hide Crc, HexText;
    var covered := body + "63" + "04";
    var p, crc := WithChecksum(body), HexText(Crc(covered));
    assert p[..|p| - 4] == covered && p[|p| - 4..] == crc;
    HexIsUpper(Crc(covered));
  }

  lemma HexIsUpper(r: Word)
    ensures UpperText(HexText(r)) == HexText(r)
  {
    hide Nibble;
  }

  /** The last four characters of every payload are digits that read as the remainder of everything before them. */
  lemma PayloadChecksum(i: QrInput)
    requires BuildAngolaBankQr(i).Success?
    ensures var p := BuildAngolaBankQr(i).value;
            && |p| >= 8 && p[|p| - 8..|p| - 4] == "6304"
            && IsHex(p[|p| - 4..])
            && IsRemainder(Dividend(ONES, BitsOfAll(p[..|p| - 4])), NumberPoly(HexValue(p[|p| - 4..])))
  {
    hide AssertQrInput, Body, Crc, HexText, HexValue, IsHex, NumberPoly, IsRemainder, Dividend;
    var covered := Body(i).value + "63" + "04";
    var p := BuildAngolaBankQr(i).value;
    PrintedIsRemainder(covered);
    assert p[..|p| - 4] == covered && p[|p| - 4..] == HexText(Crc(covered));
  }

  lemma FieldTags(i: QrInput, domestic: Bytes, additional: Bytes)
    ensures Tagged(DomesticFields(i)) && Tagged(AdditionalFields(i)) && Tagged(BodyFields(i, domestic, additional))
  {
    hide EncodeText, ToAngolaIbanValue, NameText, CityText, AmountText;
  }

  /** The whole payload as fields, the checksum last. */
  function Printed(i: QrInput, domestic: Bytes, additional: Bytes, crc: Bytes): seq<Element> {
    ElementsOf(BodyFields(i, domestic, additional)) + [ElementOf(Field("63", crc))]
  }

  /**
   Whatever is built parses back: the payload to the printed elements with tag 00 first and tag 63 last, template 26 to
   the acquirer, account and reference, template 62 to the reference twice; and its checksum verifies.
   */
  lemma BuiltPayloadParses(i: QrInput)
    returns (payload: Bytes, domestic: Bytes, additional: Bytes, crc: Bytes)
    requires BuildAngolaBankQr(i).Success?
    ensures payload == BuildAngolaBankQr(i).value
    ensures Parse(payload) == Success(Printed(i, domestic, additional, crc))
    ensures Parse(domestic) == Success(ElementsOf(DomesticFields(i)))
    ensures Parse(additional) == Success(ElementsOf(AdditionalFields(i)))
    ensures VerifyChecksum(payload)
    ensures Printed(i, domestic, additional, crc)[0].tag == "00"
  {
    hide JoinTlv, Parse, Crc, VerifyChecksum, AssertQrInput, EncodeText, ToAngolaIbanValue, Trim, Slice, AmountText;
    domestic := JoinTlv(DomesticFields(i)).value;
    additional := JoinTlv(AdditionalFields(i)).value;
    var fields := BodyFields(i, domestic, additional);
    var body := JoinTlv(fields).value;
    payload := WithChecksum(body);
    crc := HexText(Crc(body + "63" + "04"));
    FieldTags(i, domestic, additional);
    JoinParses(DomesticFields(i));
    JoinParses(AdditionalFields(i));
    ChecksumElement(fields, body);
    NotEmpty(fields);
  }

  lemma NotEmpty(fields: seq<Field>)
    requires fields != [] && JoinTlv(fields).Success?
    ensures JoinTlv(fields).value != []
  {
  }

  /* ---------------------------------------------------------------------- */
  /* What a banking app reads                                               */
  /* ---------------------------------------------------------------------- */

  datatype Reading = Reading(
    acquirer: Option<string>,
    iban: string,
    reference: string,
    category: string,
    amountCents: Option<int>,
    merchantName: string,
    merchantCity: string)

  /** The value of the first element with a tag. */
  function Find(elements: seq<Element>, tag: Bytes): Option<Bytes> {
    if elements == [] then None
    else if elements[0].tag == tag then Some(elements[0].value)
    else Find(elements[1..], tag)
  }

  function ReadText(elements: seq<Element>, tag: Bytes): Option<string> {
    match Find(elements, tag)
    case Some(value) => DecodeText(value)
    case None => None
  }

  /** 1234.56 is 123456 cents. */
  function ReadAmount(s: Bytes): Option<int> {
    if |s| >= 4 && AllDigits(s[..|s| - 3]) && s[|s| - 3] == '.' && TwoDigits(s[|s| - 2..])
    then Some(100 * DecimalValue(s[..|s| - 3]) + TwoDigitValue(s[|s| - 2..]))
    else None
  }

  /** Checks the checksum, parses the payload and its two templates, and reads the transfer. */
  function ReadPayload(p: Bytes): Option<Reading> {
    if !VerifyChecksum(p) || Parse(p).Failure? then None
    else
      var top := Parse(p).value;
      var domestic, additional := Find(top, "26"), Find(top, "62");
      if domestic.None? || additional.None? || Parse(domestic.value).Failure? || Parse(additional.value).Failure?
      then None
      else ReadFields(top, Parse(domestic.value).value, Parse(additional.value).value)
  }

  /** A static code asks the payer for the amount, a dynamic one carries it. */
  function InitiationMethod(amount: Option<Bytes>): Bytes {
    if amount.None? then "11" else "12"
  }

  /** Format 01, currency kwanza, country Angola, and a method that agrees with the presence of an amount. */
  predicate HeaderOk(top: seq<Element>) {
    && Find(top, "00") == Some("01")
    && Find(top, "01") == Some(InitiationMethod(Find(top, "54")))
    && Find(top, "53") == Some("973")
    && Find(top, "58") == Some("AO")
  }

  function ReadFields(top: seq<Element>, domestic: seq<Element>, additional: seq<Element>): Option<Reading> {
    var acquirer, iban, reference := ReadText(domestic, "00"), ReadText(domestic, "01"), ReadText(domestic, "02");
    var bill, reconciliation := ReadText(additional, "01"), ReadText(additional, "05");
    var category, name, city := ReadText(top, "52"), ReadText(top, "59"), ReadText(top, "60");
    var amount := match Find(top, "54") case Some(text) => ReadAmount(text) case None => None;
    if HeaderOk(top) && iban.Some? && reference.Some? && bill == reference && reconciliation == reference
       && category.Some? && name.Some? && city.Some? && (Find(top, "54").Some? ==> amount.Some?)
    then Some(Reading(acquirer, iban.value, reference.value, category.value, amount, name.value, city.value))
    else None
  }

  lemma {:induction false} FindAt(elements: seq<Element>, k: nat)
    requires k < |elements| && forall j :: 0 <= j < k ==> elements[j].tag != elements[k].tag
    ensures Find(elements, elements[k].tag) == Some(elements[k].value)
    decreases k
  {
    if k == 0 {
    } else {
      FindAt(elements[1..], k - 1);
    }
  }

  lemma {:induction false} FindNone(elements: seq<Element>, tag: Bytes)
    requires forall j :: 0 <= j < |elements| ==> elements[j].tag != tag
    ensures Find(elements, tag) == None
  {
    if elements == [] {
    } else {
      FindNone(elements[1..], tag);
    }
  }

  /** Printing an amount fails exactly on negative ones, and loses no cent. */
  lemma AmountReadsBack(cents: int)
    ensures FormatQrAmount(cents).Success? <==> cents >= 0
    ensures cents >= 0 ==> ReadAmount(FormatQrAmount(cents).value) == Some(cents)
  {
    hide Decimal, TwoDigitText, TwoDigitValue;
    if cents >= 0 {
      var whole, text := DecimalBytes(cents / 100), AmountText(cents);
      DecimalRoundTrip(cents / 100);
      TwoDigitRoundTrip(cents % 100, []);
      assert text[..|text| - 3] == whole && text[|text| - 2..] == TwoDigitText(cents % 100);
    }
  }

  function AcquirerOf(i: QrInput): Option<string> {
    if i.acquirerGui.GetOr("") == "" then None else i.acquirerGui
  }

  lemma TemplatesRead(i: QrInput)
    ensures ReadText(ElementsOf(DomesticFields(i)), "00") == AcquirerOf(i)
    ensures ReadText(ElementsOf(DomesticFields(i)), "01") == Some(ToAngolaIbanValue(i.iban))
    ensures ReadText(ElementsOf(DomesticFields(i)), "02") == Some(i.reference)
    ensures ReadText(ElementsOf(AdditionalFields(i)), "01") == Some(i.reference)
    ensures ReadText(ElementsOf(AdditionalFields(i)), "05") == Some(i.reference)
  {
    hide EncodeText, DecodeText, ToAngolaIbanValue, Find;
    var d, a := ElementsOf(DomesticFields(i)), ElementsOf(AdditionalFields(i));
    FindAt(d, |d| - 2);
    FindAt(d, |d| - 1);
    if i.acquirerGui.GetOr("") == "" { FindNone(d, "00"); } else { FindAt(d, 0); }
    FindAt(a, 0);
    FindAt(a, 1);
    TextRoundTrip(i.acquirerGui.GetOr(""));
    TextRoundTrip(ToAngolaIbanValue(i.iban));
    TextRoundTrip(i.reference);
  }

  function Tags(elements: seq<Element>): seq<Bytes> {
    seq(|elements|, k requires 0 <= k < |elements| => elements[k].tag)
  }

  const STATIC_TAGS: seq<Bytes> := ["00", "01", "26", "52", "53", "58", "59", "60", "62", "63"]
  const DYNAMIC_TAGS: seq<Bytes> := ["00", "01", "26", "52", "53", "54", "58", "59", "60", "62", "63"]

  lemma PrintedTags(i: QrInput, domestic: Bytes, additional: Bytes, crc: Bytes)
    ensures Tags(Printed(i, domestic, additional, crc)) == if AmountFields(i) == [] then STATIC_TAGS else DYNAMIC_TAGS
  {
    hide EncodeText, AmountText, NameText, CityText;
  }

  lemma DistinctTags(k: nat)
    ensures k < 10 ==> forall j :: 0 <= j < k ==> STATIC_TAGS[j] != STATIC_TAGS[k]
    ensures k < 11 ==> forall j :: 0 <= j < k ==> DYNAMIC_TAGS[j] != DYNAMIC_TAGS[k]
    ensures forall j :: 0 <= j < 10 ==> STATIC_TAGS[j] != "54"
  {
    forall j, l | 0 <= j < l < 11
      ensures DYNAMIC_TAGS[j] != DYNAMIC_TAGS[l]
    {
      TagNumber(j);
      TagNumber(l);
    }
    forall j | 0 <= j < 10
      ensures STATIC_TAGS[j] == DYNAMIC_TAGS[if j < 5 then j else j + 1]
    {
    }
  }

  /** The tags grow, so no two are equal. */
  lemma TagNumber(j: nat)
    requires j < 11
    ensures TwoDigits(DYNAMIC_TAGS[j])
    ensures TwoDigitValue(DYNAMIC_TAGS[j]) == [0, 1, 26, 52, 53, 54, 58, 59, 60, 62, 63][j]
  {
  }

  lemma FindPrinted(i: QrInput, domestic: Bytes, additional: Bytes, crc: Bytes, k: nat)
    requires k < |Printed(i, domestic, additional, crc)|
    ensures var top := Printed(i, domestic, additional, crc); Find(top, top[k].tag) == Some(top[k].value)
    ensures AmountFields(i) == [] ==> Find(Printed(i, domestic, additional, crc), "54") == None
  {
    hide Printed, Find, AmountFields;
    var top := Printed(i, domestic, additional, crc);
    PrintedTags(i, domestic, additional, crc);
    DistinctTags(k);
    assert forall j :: 0 <= j < |top| ==> Tags(top)[j] == top[j].tag;
    hide STATIC_TAGS, DYNAMIC_TAGS;
    FindAt(top, k);
    if AmountFields(i) == [] {
      FindNone(top, "54");
    }
  }

  lemma TopFinds(i: QrInput, domestic: Bytes, additional: Bytes, crc: Bytes)
    ensures var top := Printed(i, domestic, additional, crc);
            && Find(top, "26") == Some(domestic)
            && Find(top, "62") == Some(additional)
            && Find(top, "59") == Some(EncodeText(NameText(i)))
            && Find(top, "60") == Some(EncodeText(CityText(i)))
            && Find(top, "54") == (if AmountFields(i) == [] then None else Some(AmountText(i.amountCents.value)))
  {
    hide EncodeText, AmountText, NameText, CityText, Find;
    var n := |Printed(i, domestic, additional, crc)|;
    FindPrinted(i, domestic, additional, crc, 2);
    FindPrinted(i, domestic, additional, crc, n - 2);
    FindPrinted(i, domestic, additional, crc, n - 3);
    FindPrinted(i, domestic, additional, crc, n - 4);
    if AmountFields(i) != [] {
      FindPrinted(i, domestic, additional, crc, 5);
    }
  }

  lemma HeaderFinds(i: QrInput, domestic: Bytes, additional: Bytes, crc: Bytes)
    requires AssertQrInput(i).None?
    ensures var top := Printed(i, domestic, additional, crc);
            HeaderOk(top) && Find(top, "52") == Some(EncodeText(i.merchantCategoryCode.GetOr("0000")))
  {
    TopFinds(i, domestic, additional, crc);
    hide EncodeText, AmountText, NameText, CityText, Find, IsValidValue, Trim;
    var n := |Printed(i, domestic, additional, crc)|;
    FindPrinted(i, domestic, additional, crc, 0);
    FindPrinted(i, domestic, additional, crc, 1);
    FindPrinted(i, domestic, additional, crc, 3);
    FindPrinted(i, domestic, additional, crc, 4);
    FindPrinted(i, domestic, additional, crc, n - 5);
  }

  /**
   Round trip: reading any payload that was built gives the acquirer, account, reference, category, amount, and trimmed
   name and city; and the reader's own checks of format, method, currency, country and checksum all pass.
   */
  lemma BuiltPayloadReadsBack(i: QrInput)
    requires BuildAngolaBankQr(i).Success?
    ensures ReadPayload(BuildAngolaBankQr(i).value)
            == Some(Reading(AcquirerOf(i), ToAngolaIbanValue(i.iban), i.reference, i.merchantCategoryCode.GetOr("0000"),
                            i.amountCents, NameText(i), CityText(i)))
  {
    hide Parse, VerifyChecksum, Find, EncodeText, DecodeText, ToAngolaIbanValue, Trim, Slice, AmountText, ReadAmount,
         Body,
         WithChecksum, Printed, IsValidValue, HeaderOk;
    var payload, domestic, additional, crc := BuiltPayloadParses(i);
    TopFinds(i, domestic, additional, crc);
    HeaderFinds(i, domestic, additional, crc);
    TemplatesRead(i);
    TextRoundTrip(NameText(i));
    TextRoundTrip(CityText(i));
    TextRoundTrip(i.merchantCategoryCode.GetOr("0000"));
    if AmountFields(i) != [] {
      AmountReadsBack(i.amountCents.value);
    }
  }

  /* ---------------------------------------------------------------------- */
  /* When building succeeds                                                 */
  /* ---------------------------------------------------------------------- */

  /** The inputs whose elements all fit: the reference at most 45 bytes, and with an acquirer 62 for both together. */
  predicate Fits(i: QrInput) {
    var reference, gui := |EncodeText(i.reference)|, |EncodeText(i.acquirerGui.GetOr(""))|;
    && reference <= 45
    && (i.acquirerGui.GetOr("") != "" ==> gui + reference <= 62)
    && |EncodeText(i.merchantCategoryCode.GetOr("0000"))| <= 99
    && (i.amountCents.Some? && i.amountCents.value >= 0 ==> |AmountText(i.amountCents.value)| <= 99)
  }

  lemma AccountBytes(i: QrInput)
    requires IsValidValue(i.iban)
    ensures |EncodeText(ToAngolaIbanValue(i.iban))| == 25
  {
    hide EncodeText, NormalizeIban;
    var s := ToAngolaIbanValue(i.iban);
    assert forall k :: 2 <= k < 25 ==> s[k] == s[2..][k - 2];
    AsciiIsItself(s);
  }

  lemma TwoElements(a: Field, b: Field)
    requires TwoDigits(a.tag) && TwoDigits(b.tag)
    ensures JoinTlv([a, b]).Success? <==> |a.value| <= 99 && |b.value| <= 99
    ensures JoinTlv([a, b]).Success? ==> |JoinTlv([a, b]).value| == 8 + |a.value| + |b.value|
  {
    OneMoreElement(b, []);
    assert [b] + [] == [b];
    OneMoreElement(a, [b]);
    assert [a] + [b] == [a, b];
  }

  lemma OneMoreElement(a: Field, rest: seq<Field>)
    requires TwoDigits(a.tag)
    ensures JoinTlv([a] + rest).Success? <==> |a.value| <= 99 && JoinTlv(rest).Success?
    ensures JoinTlv([a] + rest).Success? ==> |JoinTlv([a] + rest).value| == 4 + |a.value| + |JoinTlv(rest).value|
  {
    assert ([a] + rest)[1..] == rest;
  }

  lemma DomesticFits(i: QrInput)
    requires IsValidValue(i.iban)
    ensures var r, g := |EncodeText(i.reference)|, |EncodeText(i.acquirerGui.GetOr(""))|;
            var d := JoinTlv(DomesticFields(i));
            (d.Success? && |d.value| <= 99)
            <==> (if i.acquirerGui.GetOr("") == "" then r <= 66 else g + r <= 62)
  {
    hide EncodeText, JoinTlv, ToAngolaIbanValue, IsValidValue;
    AccountBytes(i);
    var account, reference := Field("01", EncodeText(ToAngolaIbanValue(i.iban))), Field("02", EncodeText(i.reference));
    TwoElements(account, reference);
    if i.acquirerGui.GetOr("") == "" {
      assert DomesticFields(i) == [account, reference];
    } else {
      var gui := Field("00", EncodeText(i.acquirerGui.value));
      OneMoreElement(gui, [account, reference]);
      assert DomesticFields(i) == [gui] + [account, reference];
    }
  }

  lemma BodyFits(i: QrInput, domestic: Bytes, additional: Bytes)
    ensures Fitting(BodyFields(i, domestic, additional))
            <==> |domestic| <= 99 && |additional| <= 99
                 && |EncodeText(i.merchantCategoryCode.GetOr("0000"))| <= 99
                 && (i.amountCents.Some? && i.amountCents.value >= 0 ==> |AmountText(i.amountCents.value)| <= 99)
  {
    hide EncodeText, AmountText, Trim, Slice;
    var f := BodyFields(i, domestic, additional);
    SliceBytes(Trim(i.merchantName), 25);
    SliceBytes(Trim(i.merchantCity.GetOr("Luanda")), 15);
    assert f[2].value == domestic && f[|f| - 1].value == additional;
    assert f[3].value == EncodeText(i.merchantCategoryCode.GetOr("0000"));
    if i.amountCents.Some? && i.amountCents.value >= 0 {
      assert f[5].value == AmountText(i.amountCents.value);
    }
  }

  /** Both templates fit exactly when the reference and the acquirer leave room. */
  lemma TemplatesFit(i: QrInput)
    requires IsValidValue(i.iban)
    ensures var d, a := JoinTlv(DomesticFields(i)), JoinTlv(AdditionalFields(i));
            var r, g := |EncodeText(i.reference)|, |EncodeText(i.acquirerGui.GetOr(""))|;
            (d.Success? && |d.value| <= 99 && a.Success? && |a.value| <= 99)
            <==> r <= 45 && (i.acquirerGui.GetOr("") != "" ==> g + r <= 62)
  {
    hide EncodeText, JoinTlv, IsValidValue, ToAngolaIbanValue;
    DomesticFits(i);
    var bill, reconciliation := Field("01", EncodeText(i.reference)), Field("05", EncodeText(i.reference));
    TwoElements(bill, reconciliation);
    assert AdditionalFields(i) == [bill, reconciliation];
  }

  lemma BodySucceedsIff(i: QrInput)
    requires IsValidValue(i.iban)
    ensures Body(i).Success? <==> Fits(i)
  {
    hide EncodeText, JoinTlv, BodyFields, DomesticFields, AdditionalFields, IsValidValue, AmountText, Fitting, Tagged;
    TemplatesFit(i);
    var d, a := JoinTlv(DomesticFields(i)), JoinTlv(AdditionalFields(i));
    if d.Success? && a.Success? {
      FieldTags(i, d.value, a.value);
      JoinIff(BodyFields(i, d.value, a.value));
      BodyFits(i, d.value, a.value);
    }
  }

  predicate Blank(s: string) {
    forall c :: c in s ==> IsSpace(c)
  }

  /** A valid account, a name and a reference with something visible in them, and no negative amount. */
  predicate Complete(i: QrInput) {
    IsValidValue(i.iban) && !Blank(i.merchantName) && !Blank(i.reference)
    && (i.amountCents.Some? ==> i.amountCents.value >= 0)
  }

  /** Building throws exactly when an input check fails or some element would exceed 99 bytes. */
  lemma BuildSucceedsIff(i: QrInput)
    ensures BuildAngolaBankQr(i).Success? <==> Complete(i) && Fits(i)
  {
    hide Body, Fits, IsValidValue, Trim, Blank;
    CompleteIff(i);
    if IsValidValue(i.iban) {
      BodySucceedsIff(i);
    }
  }

  lemma CompleteIff(i: QrInput)
    ensures Complete(i) <==> AssertQrInput(i).None?
  {
    hide IsValidValue, Trim;
    TrimEmptyIff(i.merchantName);
    TrimEmptyIff(i.reference);
  }

  /** Which error it throws: the first of account, name, reference and amount that is wrong, and then the lengths. */
  lemma BuildErrors(i: QrInput)
    requires BuildAngolaBankQr(i).Failure?
    ensures match BuildAngolaBankQr(i).error
            case InvalidIban => !IsValidValue(i.iban)
            case NameRequired => IsValidValue(i.iban) && Blank(i.merchantName)
            case ReferenceRequired => IsValidValue(i.iban) && !Blank(i.merchantName) && Blank(i.reference)
            case BadAmount =>
              && IsValidValue(i.iban) && !Blank(i.merchantName) && !Blank(i.reference)
              && i.amountCents.Some? && i.amountCents.value < 0
            case BadElement(_) => Complete(i) && !Fits(i)
  {
    hide Body, Fits, IsValidValue, Trim;
    TrimEmptyIff(i.merchantName);
    TrimEmptyIff(i.reference);
    if IsValidValue(i.iban) {
      BodySucceedsIff(i);
    }
  }

  /**
   The checkout's own inputs never make building throw: an ASCII acquirer of at most 40 characters, a generated
   19-character reference, the default category and an amount within the database's integer range.
   */
  lemma CheckoutNeverThrows(i: QrInput)
    requires IsAscii(i.acquirerGui.GetOr("")) && |i.acquirerGui.GetOr("")| <= 40
    requires IsAscii(i.reference) && |i.reference| == 19
    requires i.merchantCategoryCode.None?
    requires i.amountCents.Some? ==> i.amountCents.value < 0x8000_0000
    ensures TryBuildAngolaBankQr(i).Some? <==> Complete(i)
  {
    hide EncodeText, Complete, BuildAngolaBankQr;
    BuildSucceedsIff(i);
    AsciiIsItself(i.acquirerGui.GetOr(""));
    AsciiIsItself(i.reference);
    AsciiIsItself("0000");
    if i.amountCents.Some? && i.amountCents.value >= 0 {
      assert PowerOfTen(8) == 100_000_000 by { assert PowerOfTen(4) == 10_000; }
      DecimalLength(i.amountCents.value / 100, 8);
    }
  }
}

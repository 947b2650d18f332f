/** Tag-length-value elements (EMV QR Code Specification, Merchant-Presented Mode; qr-payment.ts). */
module TlvCodec {
  import opened Wrappers
  import opened Text
  import opened Crc16

  datatype Element = Element(tag: Bytes, length: nat, value: Bytes)

  datatype TlvError =
    | InvalidTag
    | TooLong
    | TruncatedHeader
    | MalformedHeader(offset: nat)
    | PastEnd(tag: Bytes, length: nat)

  predicate TwoDigits(s: Bytes) {
    |s| == 2 && IsDigit(s[0]) && IsDigit(s[1])
  }

  function TwoDigitText(n: nat): (s: Bytes)
    requires n < 100
    ensures TwoDigits(s)
  {
    [Digit(n / 10), Digit(n % 10)]
  }

  function TwoDigitValue(s: Bytes): (n: nat)
    requires TwoDigits(s)
    ensures n < 100
  {
    10 * DigitValue(s[0]) + DigitValue(s[1])
  }

  lemma TwoDigitRoundTrip(n: nat, s: Bytes)
    ensures n < 100 ==> TwoDigitValue(TwoDigitText(n)) == n
    ensures TwoDigits(s) ==> TwoDigitText(TwoDigitValue(s)) == s
  {
  }

  /** Encodes one element. */
  function Tlv(tag: Bytes, value: Bytes): (r: Result<Bytes, TlvError>)
    ensures r.Success? <==> TwoDigits(tag) && |value| <= 99
    ensures r.Success? ==> |r.value| == 4 + |value|
  {
    if !TwoDigits(tag) then Failure(InvalidTag)
    else if |value| > 99 then Failure(TooLong)
    else
      PaddedTwoDigits(|value|);
      Success(tag + PadStart(Decimal(|value|), 2) + value)
  }

  /** Reads the elements from `cursor` on. */
  function ParseFrom(p: Bytes, cursor: nat): Result<seq<Element>, TlvError>
    requires cursor <= |p|
    decreases |p| - cursor
  {
    if cursor == |p| then Success([])
    else if cursor + 4 > |p| then Failure(TruncatedHeader)
    else if !TwoDigits(p[cursor..cursor + 2]) || !TwoDigits(p[cursor + 2..cursor + 4]) then
      Failure(MalformedHeader(cursor))
    else
      var tag := p[cursor..cursor + 2];
      var length := TwoDigitValue(p[cursor + 2..cursor + 4]);
      var end := cursor + 4 + length;
      if end > |p| then Failure(PastEnd(tag, length))
      else
        var rest :- ParseFrom(p, end);
        Success([Element(tag, length, p[cursor + 4..end])] + rest)
  }

  function Parse(p: Bytes): Result<seq<Element>, TlvError> {
    ParseFrom(p, 0)
  }

  function Prepend(elements: seq<Element>, rest: Result<seq<Element>, TlvError>): Result<seq<Element>, TlvError> {
    match rest
    case Success(more) => Success(elements + more)
    case Failure(error) => Failure(error)
  }

  method ParseTlv(payload: Bytes) returns (r: Result<seq<Element>, TlvError>)
    ensures r == Parse(payload)
  {
    var elements: seq<Element> := [];
    var cursor := 0;
    PrependNothing(ParseFrom(payload, 0));
    while cursor < |payload|
      invariant cursor <= |payload|
      invariant Parse(payload) == Prepend(elements, ParseFrom(payload, cursor))
      decreases |payload| - cursor
    {
      if cursor + 4 > |payload| {
        return Failure(TruncatedHeader);
      }
      var tag := payload[cursor..cursor + 2];
      var lengthText := payload[cursor + 2..cursor + 4];
      if !TwoDigits(tag) || !TwoDigits(lengthText) {
        return Failure(MalformedHeader(cursor));
      }
      var length := TwoDigitValue(lengthText);
      var start := cursor + 4;
      var end := start + length;
      if end > |payload| {
        return Failure(PastEnd(tag, length));
      }
      var element := Element(tag, length, payload[start..end]);
      PrependOne(elements, element, ParseFrom(payload, end));
      elements := elements + [element];
      cursor := end;
    }
    assert elements + [] == elements;
    r := Success(elements);
  }

  lemma PrependNothing(rest: Result<seq<Element>, TlvError>)
    ensures Prepend([], rest) == rest
  {
    if rest.Success? {
      assert [] + rest.value == rest.value;
    }
  }

  lemma PrependOne(elements: seq<Element>, e: Element, rest: Result<seq<Element>, TlvError>)
    ensures Prepend(elements + [e], rest) == Prepend(elements, Prepend([e], rest))
  {
    if rest.Success? {
      assert elements + [e] + rest.value == elements + ([e] + rest.value);
    }
  }

  /* ---------------------------------------------------------------------- */
  /* Printing and parsing are inverse                                       */
  /* ---------------------------------------------------------------------- */

  predicate WellFormed(e: Element) {
    TwoDigits(e.tag) && e.length == |e.value| <= 99
  }

  function Encode(e: Element): Bytes
    requires WellFormed(e)
  {
    e.tag + TwoDigitText(e.length) + e.value
  }

  lemma EncodeIsTlv(e: Element)
    requires WellFormed(e)
    ensures Tlv(e.tag, e.value) == Success(Encode(e))
  {
    PaddedTwoDigits(e.length);
  }

  predicate AllWellFormed(elements: seq<Element>) {
    forall e :: e in elements ==> WellFormed(e)
  }

  function EncodeAll(elements: seq<Element>): Bytes
    requires AllWellFormed(elements)
  {
    if elements == [] then [] else Encode(elements[0]) + EncodeAll(elements[1..])
  }

  /** Where the parts of an encoded element lie. */
  lemma EncodedParts(p: Bytes, cursor: nat, e: Element, tail: Bytes)
    requires cursor <= |p| && WellFormed(e) && p[cursor..] == Encode(e) + tail
    ensures var end := cursor + 4 + e.length;
            && end <= |p| && p[cursor..cursor + 2] == e.tag && p[cursor + 2..cursor + 4] == TwoDigitText(e.length)
            && p[cursor + 4..end] == e.value && p[end..] == tail
  {
    hide TwoDigitText;
    var q := p[cursor..];
    var end := 4 + e.length;
    assert q == e.tag + TwoDigitText(e.length) + e.value + tail;
    assert q[..2] == e.tag && q[2..4] == TwoDigitText(e.length) && q[4..end] == e.value && q[end..] == tail;
  }

  lemma {:induction false} ParseEncoded(p: Bytes, cursor: nat, elements: seq<Element>)
    requires cursor <= |p| && AllWellFormed(elements) && p[cursor..] == EncodeAll(elements)
    ensures ParseFrom(p, cursor) == Success(elements)
    decreases |elements|
  {
    hide TwoDigitText, TwoDigitValue, Encode;
    if elements == [] {
    } else {
      var e := elements[0];
      assert WellFormed(e);
      EncodedParts(p, cursor, e, EncodeAll(elements[1..]));
      TwoDigitRoundTrip(e.length, []);
      ParseEncoded(p, cursor + 4 + e.length, elements[1..]);
      assert elements == [Element(e.tag, e.length, e.value)] + elements[1..];
    }
  }

  lemma {:induction false} ParsedReencodes(p: Bytes, cursor: nat)
    requires cursor <= |p| && ParseFrom(p, cursor).Success?
    ensures AllWellFormed(ParseFrom(p, cursor).value)
    ensures EncodeAll(ParseFrom(p, cursor).value) == p[cursor..]
    decreases |p| - cursor
  {
    hide TwoDigitText, TwoDigitValue;
    if cursor >= |p| {
    } else {
      var tag := p[cursor..cursor + 2];
      var length := TwoDigitValue(p[cursor + 2..cursor + 4]);
      var end := cursor + 4 + length;
      var e := Element(tag, length, p[cursor + 4..end]);
      ParsedReencodes(p, end);
      TwoDigitRoundTrip(0, p[cursor + 2..cursor + 4]);
      assert ParseFrom(p, cursor).value == [e] + ParseFrom(p, end).value;
      assert p[cursor..] == tag + p[cursor + 2..cursor + 4] + e.value + p[end..];
    }
  }

  /** A payload parses to some elements exactly when it is their concatenated encodings. */
  lemma ParseIff(p: Bytes, elements: seq<Element>)
    ensures Parse(p) == Success(elements) <==> AllWellFormed(elements) && EncodeAll(elements) == p
  {
    assert p[0..] == p;
    if Parse(p).Success? {
      ParsedReencodes(p, 0);
    }
    if AllWellFormed(elements) && EncodeAll(elements) == p {
      ParseEncoded(p, 0, elements);
    }
  }

  /** Why no further element can be read where the rest of a payload starts, at byte `offset`. */
  predicate Unreadable(rest: Bytes, offset: nat, error: TlvError) {
    match error
    case TruncatedHeader => 1 <= |rest| <= 3
    case MalformedHeader(at) => |rest| >= 4 && at == offset && !(TwoDigits(rest[..2]) && TwoDigits(rest[2..4]))
    case PastEnd(tag, length) =>
      && |rest| >= 4 && TwoDigits(rest[..2]) && TwoDigits(rest[2..4])
      && tag == rest[..2] && length == TwoDigitValue(rest[2..4]) && |rest| < 4 + length
    case _ => false
  }

  lemma {:induction false} FailsAfter(p: Bytes, cursor: nat) returns (elements: seq<Element>, rest: Bytes)
    requires cursor <= |p| && ParseFrom(p, cursor).Failure?
    ensures AllWellFormed(elements) && EncodeAll(elements) + rest == p[cursor..]
    ensures Unreadable(rest, cursor + |EncodeAll(elements)|, ParseFrom(p, cursor).error)
    decreases |p| - cursor
  {
    hide *;
    if !HasElement(p, cursor) {
      elements, rest := [], p[cursor..];
      FailsHere(p, cursor);
    } else {
      var e := FirstElement(p, cursor);
      var more;
      more, rest := FailsAfter(p, cursor + 4 + e.length);
      elements := [e] + more;
      ElementInFront(e, more, rest);
      assert cursor + |EncodeAll(elements)| == cursor + 4 + e.length + |EncodeAll(more)|;
    }
  }

  lemma ElementInFront(e: Element, more: seq<Element>, rest: Bytes)
    requires WellFormed(e) && AllWellFormed(more)
    ensures AllWellFormed([e] + more)
    ensures EncodeAll([e] + more) + rest == Encode(e) + (EncodeAll(more) + rest)
    ensures |EncodeAll([e] + more)| == 4 + e.length + |EncodeAll(more)|
  {
    hide TwoDigitText;
    assert ([e] + more)[1..] == more;
  }

  /** There is a header at `cursor`, and the payload is long enough for what it declares. */
  predicate HasElement(p: Bytes, cursor: nat) {
    && cursor + 4 <= |p| && TwoDigits(p[cursor..cursor + 2]) && TwoDigits(p[cursor + 2..cursor + 4])
    && cursor + 4 + TwoDigitValue(p[cursor + 2..cursor + 4]) <= |p|
  }

  lemma FailsHere(p: Bytes, cursor: nat)
    requires cursor <= |p| && ParseFrom(p, cursor).Failure? && !HasElement(p, cursor)
    ensures AllWellFormed([]) && |EncodeAll([])| == 0 && EncodeAll([]) + p[cursor..] == p[cursor..]
    ensures Unreadable(p[cursor..], cursor, ParseFrom(p, cursor).error)
  {
    hide TwoDigitValue;
    if cursor + 4 <= |p| {
      var rest := p[cursor..];
      assert rest[..2] == p[cursor..cursor + 2] && rest[2..4] == p[cursor + 2..cursor + 4];
    }
  }

  lemma FirstElement(p: Bytes, cursor: nat) returns (e: Element)
    requires HasElement(p, cursor) && ParseFrom(p, cursor).Failure?
    ensures var end := cursor + 4 + e.length;
            && WellFormed(e) && end <= |p| && p[cursor..] == Encode(e) + p[end..]
            && ParseFrom(p, end) == ParseFrom(p, cursor)
  {
    hide TwoDigitText, TwoDigitValue;
    var length := TwoDigitValue(p[cursor + 2..cursor + 4]);
    e := Element(p[cursor..cursor + 2], length, p[cursor + 4..cursor + 4 + length]);
    TwoDigitRoundTrip(0, p[cursor + 2..cursor + 4]);
  }

  /** A payload that does not parse is some elements and a rest that starts with no element, for the reported reason. */
  lemma ParseFails(p: Bytes) returns (elements: seq<Element>, rest: Bytes)
    requires Parse(p).Failure?
    ensures AllWellFormed(elements) && EncodeAll(elements) + rest == p
    ensures Unreadable(rest, |EncodeAll(elements)|, Parse(p).error)
  {
    elements, rest := FailsAfter(p, 0);
    assert p[0..] == p;
  }

  lemma {:induction false} EncodeConcat(a: seq<Element>, b: seq<Element>)
    requires AllWellFormed(a) && AllWellFormed(b)
    ensures AllWellFormed(a + b) && EncodeAll(a + b) == EncodeAll(a) + EncodeAll(b)
  {
    if a == [] {
      assert a + b == b;
    } else {
      assert (a + b)[1..] == a[1..] + b;
      EncodeConcat(a[1..], b);
    }
  }
}

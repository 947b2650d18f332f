/** CRC-16/CCITT-FALSE (EMV QR Code Specification, Merchant-Presented Mode, section 4.7.3; qr-payment.ts). */
module Crc16 {
  import opened Text
  import opened Polynomials

  /** A byte, shown as the character with that code, so that ASCII constants read as they are written. */
  type Byte = c: char | c < '\U{0100}'

  type Bytes = seq<Byte>

  /** The low k binary digits of n, most significant first. */
  function Binary(n: nat, k: nat): (bits: seq<bool>)
    ensures |bits| == k
  {
    if k == 0 then [] else Binary(n / 2, k - 1) + [n % 2 == 1]
  }

  function BinaryValue(bits: seq<bool>): nat {
    if bits == [] then 0 else 2 * BinaryValue(bits[..|bits| - 1]) + (if bits[|bits| - 1] then 1 else 0)
  }

  function PowerOfTwo(k: nat): nat {
    if k == 0 then 1 else 2 * PowerOfTwo(k - 1)
  }

  lemma {:induction false} BinaryRoundTrip(n: nat, k: nat)
    requires n < PowerOfTwo(k)
    ensures BinaryValue(Binary(n, k)) == n
  {
    if k == 0 {
    } else {
      BinaryRoundTrip(n / 2, k - 1);
      var bits := Binary(n, k);
      assert bits[..|bits| - 1] == Binary(n / 2, k - 1);
    }
  }

  /** Eight bits of a byte, most significant first. */
  function BitsOf(b: Byte): (bits: seq<bool>)
    ensures |bits| == 8
  {
    Binary(b as int, 8)
  }

  lemma BitsDetermineByte(a: Byte, b: Byte)
    requires BitsOf(a) == BitsOf(b)
    ensures a == b
  {
    assert PowerOfTwo(8) == 256;
    BinaryRoundTrip(a as int, 8);
    BinaryRoundTrip(b as int, 8);
  }

  function BitsOfAll(s: Bytes): (bits: seq<bool>)
    ensures |bits| == 8 * |s|
  {
    if s == [] then [] else BitsOf(s[0]) + BitsOfAll(s[1..])
  }

  /** A sixteen-bit register, most significant bit first. */
  type Word = r: seq<bool> | |r| == 16 witness seq(16, _ => false)

  /** 0xFFFF */
  const ONES: Word := [true, true, true, true, true, true, true, true, true, true, true, true, true, true, true, true]

  /** 0x1021, the generator without its leading term */
  const POLYNOMIAL: Word := [false, false, false, true, false, false, false, false,
                             false, false, true, false, false, false, false, true]

  function Zeros(k: nat): (z: seq<bool>)
    ensures |z| == k && forall i :: 0 <= i < k ==> !z[i]
  {
    seq(k, _ => false)
  }

  /** One turn of the inner loop: shift left, and subtract the generator if a one fell out. */
  function Turn(r: Word): Word {
    var shifted := r[1..] + [false];
    if r[0] then XorBits(shifted, POLYNOMIAL) else shifted
  }

  function Turns(r: Word, k: nat): Word
    decreases k
  {
    if k == 0 then r else Turns(Turn(r), k - 1)
  }

  /** One turn of the outer loop: a byte enters at the top, and eight bits fall out. */
  function CrcByte(r: Word, b: Byte): Word {
    Turns(XorBits(r, BitsOf(b) + Zeros(8)), 8)
  }

  function CrcFrom(r: Word, s: Bytes): Word
    decreases |s|
  {
    if s == [] then r else CrcFrom(CrcByte(r, s[0]), s[1..])
  }

  function Crc(s: Bytes): Word {
    CrcFrom(ONES, s)
  }

  /* ---------------------------------------------------------------------- */
  /* The same computation, one bit at a time                                */
  /* ---------------------------------------------------------------------- */

  function FeedBit(r: Word, b: bool): Word {
    Turn(r[0 := r[0] != b])
  }

  function Feed(r: Word, bits: seq<bool>): Word
    decreases |bits|
  {
    if bits == [] then r else Feed(FeedBit(r, bits[0]), bits[1..])
  }

  lemma {:induction false} FeedConcat(r: Word, a: seq<bool>, b: seq<bool>)
    ensures Feed(r, a + b) == Feed(Feed(r, a), b)
    decreases |a|
  {
    if a == [] {
      assert a + b == b;
    } else {
      assert (a + b)[1..] == a[1..] + b;
      FeedConcat(FeedBit(r, a[0]), a[1..], b);
    }
  }

  lemma TurnXor(r: Word, w: seq<bool>)
    requires |w| == 15
    ensures Turn(XorBits(r, [false] + w)) == XorBits(Turn(r), w + [false])
  {
  }

  /** Up to sixteen bits can enter at once, aligned with the top of the register, before the turns. */
  lemma {:induction false} FeedAligned(r: Word, a: seq<bool>)
    requires |a| <= 16
    ensures Feed(r, a) == Turns(XorBits(r, a + Zeros(16 - |a|)), |a|)
    decreases |a|
  {
    if a == [] {
      assert XorBits(r, a + Zeros(16)) == r;
    } else {
      var rest := a[1..];
      var low := rest + Zeros(16 - |a|);
      var entered := r[0 := r[0] != a[0]];
      FeedAligned(FeedBit(r, a[0]), rest);
      TurnXor(entered, low);
      assert XorBits(r, a + Zeros(16 - |a|)) == XorBits(entered, [false] + low);
      assert low + [false] == rest + Zeros(16 - |rest|);
    }
  }

  lemma {:induction false} CrcIsFeed(r: Word, s: Bytes)
    ensures CrcFrom(r, s) == Feed(r, BitsOfAll(s))
    decreases |s|
  {
    if s == [] {
    } else {
      FeedAligned(r, BitsOf(s[0]));
      FeedConcat(r, BitsOf(s[0]), BitsOfAll(s[1..]));
      CrcIsFeed(CrcByte(r, s[0]), s[1..]);
    }
  }

  /* ---------------------------------------------------------------------- */
  /* The register is a polynomial remainder                                 */
  /* ---------------------------------------------------------------------- */

  /** The register as a polynomial: the bit at position i is the coefficient of x^(15 - i). */
  function RegisterPoly(r: Word): Poly {
    set e: nat | e < 16 && Coefficient(r, e)
  }

  predicate Coefficient(r: Word, e: nat) {
    e < 16 && r[15 - e]
  }

  /** Message times x^16, with the register's initial value added to its first sixteen coefficients. */
  function Dividend(initial: Word, bits: seq<bool>): Poly {
    Add(Shift(PolyOf(bits), 16), Shift(RegisterPoly(initial), |bits|))
  }

  lemma FeedBitPoly(r: Word, b: bool)
    ensures RegisterPoly(FeedBit(r, b))
            == Add(Add(Shift(RegisterPoly(r), 1), if b then {16} else {}), if r[0] != b then GENERATOR else {})
  {
    var p := RegisterPoly(r);
    forall e: nat
      ensures e in RegisterPoly(FeedBit(r, b))
              <==> e in Add(Add(Shift(p, 1), if b then {16} else {}), if r[0] != b then GENERATOR else {})
    {
      InShift(p, 1, e);
    }
  }

  lemma DividendStep(initial: Word, bits: seq<bool>, b: bool)
    ensures Dividend(initial, bits + [b]) == Add(Shift(Dividend(initial, bits), 1), if b then {16} else {})
  {
    var m, i := PolyOf(bits), RegisterPoly(initial);
    assert (bits + [b])[..|bits|] == bits;
    ShiftAdd(Shift(m, 16), Shift(i, |bits|), 1);
    ShiftAdd(Shift(m, 1), if b then {0} else {}, 16);
    ShiftShift(m, 16, 1);
    ShiftShift(m, 1, 16);
    ShiftShift(i, |bits|, 1);
    assert Shift({0}, 16) == {16} by { forall e: nat ensures e in Shift({0}, 16) <==> e == 16 { InShift({0}, 16, e); } }
    assert Shift({}, 16) == {};
  }

  /** Feeding bits divides: the quotient's bits are those that fell out, and the register is what remains. */
  lemma {:induction false} FeedDivides(initial: Word, bits: seq<bool>) returns (q: seq<bool>)
    ensures Dividend(initial, bits) == Add(TimesGenerator(q), RegisterPoly(Feed(initial, bits)))
    decreases |bits|
  {
    if bits == [] {
      q := [];
      ShiftZero(RegisterPoly(initial));
      assert Shift(PolyOf([]), 16) == {};
    } else {
      var n := |bits| - 1;
      var head, b := bits[..n], bits[n];
      assert bits == head + [b];
      var r := Feed(initial, head);
      var q' := FeedDivides(initial, head);
      q := q' + [r[0] != b];
      assert q[..|q'|] == q';
      FeedConcat(initial, head, [b]);
      assert Feed(r, [b]) == FeedBit(r, b);
      DividendStep(initial, head, b);
      FeedBitPoly(r, b);
      ShiftAdd(TimesGenerator(q'), RegisterPoly(r), 1);
      Regroup(Shift(TimesGenerator(q'), 1), Shift(RegisterPoly(r), 1), if b then {16} else {},
              if r[0] != b then GENERATOR else {});
    }
  }

  lemma ShiftZero(p: Poly)
    ensures Shift(p, 0) == p
  {
  }

  lemma Regroup(a: Poly, b: Poly, c: Poly, g: Poly)
    ensures Add(Add(a, b), c) == Add(Add(a, g), Add(Add(b, c), g))
  {
  }

  /** For every byte string, the loop computes the remainder by the generator, and no other polynomial is it. */
  lemma CrcIsRemainder(s: Bytes)
    ensures IsRemainder(Dividend(ONES, BitsOfAll(s)), RegisterPoly(Crc(s)))
    ensures forall r :: IsRemainder(Dividend(ONES, BitsOfAll(s)), r) ==> r == RegisterPoly(Crc(s))
  {
    CrcIsFeed(ONES, s);
    var q := FeedDivides(ONES, BitsOfAll(s));
    var p := Dividend(ONES, BitsOfAll(s));
    assert IsRemainder(p, RegisterPoly(Crc(s)));
    forall r | IsRemainder(p, r)
      ensures r == RegisterPoly(Crc(s))
    {
      RemainderUnique(p, r, RegisterPoly(Crc(s)));
    }
  }

  /* ---------------------------------------------------------------------- */
  /* Bursts of up to sixteen bits are detected                              */
  /* ---------------------------------------------------------------------- */

  lemma TurnInjective(a: Word, b: Word)
    requires Turn(a) == Turn(b)
    ensures a == b
  {
    assert Turn(a)[15] == a[0] && Turn(b)[15] == b[0];
    forall i | 1 <= i < 16
      ensures a[i] == b[i]
    {
      assert Turn(a)[i - 1] == Turn(b)[i - 1];
    }
  }

  lemma {:induction false} TurnsInjective(a: Word, b: Word, k: nat)
    requires Turns(a, k) == Turns(b, k)
    ensures a == b
    decreases k
  {
    if k == 0 {
    } else {
      TurnsInjective(Turn(a), Turn(b), k - 1);
      TurnInjective(a, b);
    }
  }

  lemma {:induction false} FeedInjective(r: Word, s: Word, bits: seq<bool>)
    requires Feed(r, bits) == Feed(s, bits)
    ensures r == s
    decreases |bits|
  {
    if bits == [] {
    } else {
      FeedInjective(FeedBit(r, bits[0]), FeedBit(s, bits[0]), bits[1..]);
      TurnInjective(r[0 := r[0] != bits[0]], s[0 := s[0] != bits[0]]);
      assert r[1..] == (r[0 := r[0] != bits[0]])[1..] && s[1..] == (s[0 := s[0] != bits[0]])[1..];
      assert r == [r[0]] + r[1..] && s == [s[0]] + s[1..];
    }
  }

  /** A register tells apart any two strings of up to sixteen bits that enter it. */
  lemma WindowInjective(w: Word, a: seq<bool>, b: seq<bool>)
    requires |a| == |b| <= 16 && Feed(w, a) == Feed(w, b)
    ensures a == b
  {
    hide Feed, Turns;
    FeedAligned(w, a);
    FeedAligned(w, b);
    var z := Zeros(16 - |a|);
    var x, y := XorBits(w, a + z), XorBits(w, b + z);
    TurnsInjective(x, y, |a|);
    forall i | 0 <= i < |a|
      ensures a[i] == b[i]
    {
      assert x[i] == (w[i] != a[i]) && y[i] == (w[i] != b[i]);
    }
  }

  /** Any change confined to sixteen consecutive bits changes the register: equal registers come from equal bits. */
  lemma BurstDetected(r: Word, before: seq<bool>, a: seq<bool>, b: seq<bool>, after: seq<bool>)
    requires |a| == |b| <= 16
    ensures Feed(r, before + a + after) == Feed(r, before + b + after) <==> a == b
  {
    hide Feed;
    var w := Feed(r, before);
    FeedConcat(r, before + a, after);
    FeedConcat(r, before + b, after);
    FeedConcat(r, before, a);
    FeedConcat(r, before, b);
    if Feed(r, before + a + after) == Feed(r, before + b + after) {
      FeedInjective(Feed(w, a), Feed(w, b), after);
      WindowInjective(w, a, b);
    }
  }

  lemma {:induction false} BitsOfConcat(s: Bytes, t: Bytes)
    ensures BitsOfAll(s + t) == BitsOfAll(s) + BitsOfAll(t)
  {
    if s == [] {
      assert s + t == t;
    } else {
      assert (s + t)[1..] == s[1..] + t;
      BitsOfConcat(s[1..], t);
    }
  }

  /** Changing one byte, or two adjacent bytes, changes the checksum. */
  lemma ByteChangesDetected(before: Bytes, a: Bytes, b: Bytes, after: Bytes)
    requires |a| == |b| <= 2 && a != b
    ensures Crc(before + a + after) != Crc(before + b + after)
  {
    BitsOfConcat(before + a, after);
    BitsOfConcat(before, a);
    BitsOfConcat(before + b, after);
    BitsOfConcat(before, b);
    CrcIsFeed(ONES, before + a + after);
    CrcIsFeed(ONES, before + b + after);
    BitsDiffer(a, b);
    BurstDetected(ONES, BitsOfAll(before), BitsOfAll(a), BitsOfAll(b), BitsOfAll(after));
  }

  lemma {:induction false} BitsDiffer(a: Bytes, b: Bytes)
    requires |a| == |b| && a != b
    ensures BitsOfAll(a) != BitsOfAll(b)
  {
    assert BitsOfAll(a)[..8] == BitsOf(a[0]) && BitsOfAll(b)[..8] == BitsOf(b[0]);
    assert BitsOfAll(a)[8..] == BitsOfAll(a[1..]) && BitsOfAll(b)[8..] == BitsOfAll(b[1..]);
    if BitsOf(a[0]) == BitsOf(b[0]) {
      BitsDetermineByte(a[0], b[0]);
      assert a == [a[0]] + a[1..] && b == [b[0]] + b[1..];
      BitsDiffer(a[1..], b[1..]);
    }
  }

  /* ---------------------------------------------------------------------- */
  /* Hexadecimal digits                                                     */
  /* ---------------------------------------------------------------------- */

  function HexDigit(n: nat): (c: Byte)
    requires n < 16
  {
    if n < 10 then (48 + n) as char else (55 + n) as char
  }

  function Nibble(bits: seq<bool>): (n: nat)
    requires |bits| == 4
    ensures n < 16
  {
    8 * Bit(bits[0]) + 4 * Bit(bits[1]) + 2 * Bit(bits[2]) + Bit(bits[3])
  }

  function Bit(b: bool): nat {
    if b then 1 else 0
  }

  /** Four upper-case hexadecimal digits. */
  function HexText(r: Word): (hex: Bytes)
    ensures |hex| == 4
  {
    [HexDigit(Nibble(r[0..4])), HexDigit(Nibble(r[4..8])), HexDigit(Nibble(r[8..12])), HexDigit(Nibble(r[12..16]))]
  }

  predicate IsHexDigit(c: char) {
    '0' <= c <= '9' || 'A' <= c <= 'F'
  }

  predicate IsHex(s: string) {
    forall i :: 0 <= i < |s| ==> IsHexDigit(s[i])
  }

  /** What a reader makes of hexadecimal digits, the most significant first. */
  function HexValue(s: string): nat
    requires IsHex(s)
  {
    if s == "" then 0
    else
      var c := s[|s| - 1];
      16 * HexValue(s[..|s| - 1]) + (if c <= '9' then c as int - '0' as int else 10 + (c as int - 'A' as int))
  }

  lemma HexOneMore(s: string, bits: seq<bool>)
    requires IsHex(s) && |bits| == 4
    ensures IsHex(s + [HexDigit(Nibble(bits))])
    ensures HexValue(s + [HexDigit(Nibble(bits))]) == 16 * HexValue(s) + Nibble(bits)
  {
    assert (s + [HexDigit(Nibble(bits))])[..|s|] == s;
  }

  lemma BitOneMore(s: seq<bool>, b: bool)
    ensures BinaryValue(s + [b]) == 2 * BinaryValue(s) + Bit(b)
  {
    assert (s + [b])[..|s|] == s;
  }

  lemma NibbleOneMore(s: seq<bool>, bits: seq<bool>)
    requires |bits| == 4
    ensures BinaryValue(s + bits) == 16 * BinaryValue(s) + Nibble(bits)
  {
    hide BinaryValue;
    var a, b, c, d := bits[0], bits[1], bits[2], bits[3];
    assert s + bits == s + [a] + [b] + [c] + [d];
    BitOneMore(s, a);
    BitOneMore(s + [a], b);
    BitOneMore(s + [a] + [b], c);
    BitOneMore(s + [a] + [b] + [c], d);
  }

  lemma WordParts(r: Word)
    ensures r == r[0..4] + r[4..8] + r[8..12] + r[12..16]
    ensures r[0..4] == [] + r[0..4]
  {
  }

  lemma WordValue(r: Word)
    ensures BinaryValue(r) == 4096 * Nibble(r[0..4]) + 256 * Nibble(r[4..8]) + 16 * Nibble(r[8..12]) + Nibble(r[12..16])
  {
    assert BinaryValue([]) == 0;
    hide BinaryValue, Nibble;
    var a, b, c, d := r[0..4], r[4..8], r[8..12], r[12..16];
    WordParts(r);
    NibbleOneMore([], a);
    NibbleOneMore(a, b);
    NibbleOneMore(a + b, c);
    NibbleOneMore(a + b + c, d);
  }

  /** The printed digits are the register, its most significant bits first. */
  lemma HexReadsBack(r: Word)
    ensures IsHex(HexText(r)) && HexValue(HexText(r)) == BinaryValue(r)
  {
    WordValue(r);
    assert HexValue("") == 0;
    hide HexDigit, Nibble, BinaryValue, HexValue;
    var h := HexText(r);
    HexOneMore("", r[0..4]);
    HexOneMore(h[..1], r[4..8]);
    HexOneMore(h[..2], r[8..12]);
    HexOneMore(h[..3], r[12..16]);
    assert "" + [h[0]] == h[..1] && h[..1] + [h[1]] == h[..2];
    assert h[..2] + [h[2]] == h[..3] && h[..3] + [h[3]] == h;
  }

  /** The digit with weight 2^e of a number. */
  predicate BinaryDigit(n: nat, e: nat) {
    if e == 0 then n % 2 == 1 else BinaryDigit(n / 2, e - 1)
  }

  /** A sixteen-bit number as a polynomial: its binary digits are the coefficients. */
  function NumberPoly(n: nat): Poly {
    set e: nat | e < 16 && BinaryDigit(n, e)
  }

  lemma {:induction false} DigitsOfValue(bits: seq<bool>, e: nat)
    requires e < |bits|
    ensures BinaryDigit(BinaryValue(bits), e) <==> bits[|bits| - 1 - e]
    decreases e
  {
    var head := bits[..|bits| - 1];
    assert BinaryValue(bits) / 2 == BinaryValue(head);
    if e == 0 {
    } else {
      DigitsOfValue(head, e - 1);
    }
  }

  /** The four characters printed for a byte string read as the remainder of its polynomial. */
  lemma PrintedIsRemainder(s: Bytes)
    ensures var hex := HexText(Crc(s));
            IsHex(hex) && IsRemainder(Dividend(ONES, BitsOfAll(s)), NumberPoly(HexValue(hex)))
  {
    var r := Crc(s);
    CrcIsRemainder(s);
    HexReadsBack(r);
    hide Crc, IsRemainder, BinaryValue, BinaryDigit, HexText, HexValue;
    forall e: nat | e < 16
      ensures BinaryDigit(BinaryValue(r), e) <==> Coefficient(r, e)
    {
      DigitsOfValue(r, e);
    }
    assert NumberPoly(BinaryValue(r)) == RegisterPoly(r);
  }

  lemma NibbleInjective(a: seq<bool>, b: seq<bool>)
    requires |a| == |b| == 4 && HexDigit(Nibble(a)) == HexDigit(Nibble(b))
    ensures a == b
  {
  }

  lemma HexInjective(r: Word, s: Word)
    requires HexText(r) == HexText(s)
    ensures r == s
  {
    hide HexDigit, Nibble;
    assert HexText(r)[0] == HexText(s)[0] && HexText(r)[1] == HexText(s)[1];
    assert HexText(r)[2] == HexText(s)[2] && HexText(r)[3] == HexText(s)[3];
    NibbleInjective(r[0..4], s[0..4]);
    NibbleInjective(r[4..8], s[4..8]);
    NibbleInjective(r[8..12], s[8..12]);
    NibbleInjective(r[12..16], s[12..16]);
    assert r == r[0..4] + r[4..8] + r[8..12] + r[12..16];
    assert s == s[0..4] + s[4..8] + s[8..12] + s[12..16];
  }

  /* ---------------------------------------------------------------------- */
  /* The loop, on numbers                                                   */
  /* ---------------------------------------------------------------------- */

  /** The operator ^ on numbers, binary digit by binary digit. */
  function Xor(a: nat, b: nat): nat {
    if a == 0 && b == 0 then 0 else 2 * Xor(a / 2, b / 2) + (if a % 2 != b % 2 then 1 else 0)
  }

  lemma XorOneMore(a: nat, b: nat, x: bool, y: bool)
    ensures Xor(2 * a + Bit(x), 2 * b + Bit(y)) == 2 * Xor(a, b) + Bit(x != y)
  {
  }

  lemma LastBit(a: seq<bool>)
    requires a != []
    ensures var n := |a| - 1; BinaryValue(a) == 2 * BinaryValue(a[..n]) + Bit(a[n])
  {
  }

  lemma {:induction false} XorValue(a: seq<bool>, b: seq<bool>)
    requires |a| == |b|
    ensures BinaryValue(XorBits(a, b)) == Xor(BinaryValue(a), BinaryValue(b))
    decreases |a|
  {
    if a == [] {
    } else {
      hide BinaryValue, Xor;
      var n := |a| - 1;
      XorValue(a[..n], b[..n]);
      var c := XorBits(a, b);
      assert c[..n] == XorBits(a[..n], b[..n]);
      LastBit(a);
      LastBit(b);
      LastBit(c);
      XorOneMore(BinaryValue(a[..n]), BinaryValue(b[..n]), a[n], b[n]);
    }
  }

  lemma {:induction false} LeadingBit(b: bool, s: seq<bool>)
    ensures BinaryValue([b] + s) == Bit(b) * PowerOfTwo(|s|) + BinaryValue(s)
    ensures BinaryValue(s) < PowerOfTwo(|s|)
  {
    var t := [b] + s;
    if s == [] {
      assert t[..0] == [];
    } else {
      var n := |s| - 1;
      LeadingBit(b, s[..n]);
      assert t[..n + 1] == [b] + s[..n];
    }
  }

  /** `crc << 1` cut to sixteen bits, and the polynomial 0x1021 if a one fell out. */
  function TurnNumber(crc: nat): nat {
    var shifted := 2 * crc % 0x1_0000;
    if crc >= 0x8000 then Xor(shifted, 0x1021) else shifted
  }

  lemma Powers()
    ensures PowerOfTwo(15) == 0x8000
  {
    assert PowerOfTwo(4) == 16;
    assert PowerOfTwo(8) == 256;
    assert PowerOfTwo(12) == 4096;
  }

  lemma TurnValue(r: Word)
    ensures BinaryValue(Turn(r)) == TurnNumber(BinaryValue(r))
  {
    var s := r[1..];
    LeadingBit(r[0], s);
    assert [r[0]] + s == r;
    assert PowerOfTwo(15) == 0x8000 by { Powers(); }
    BitOneMore(s, false);
    assert BinaryValue(s + [false]) == 2 * BinaryValue(r) % 0x1_0000;
    PolynomialValue();
    XorValue(s + [false], POLYNOMIAL);
  }

  lemma PolynomialValue()
    ensures BinaryValue(POLYNOMIAL) == 0x1021 && BinaryValue(ONES) == 0xFFFF
  {
    WordValue(POLYNOMIAL);
    WordValue(ONES);
    hide BinaryValue;
  }

  lemma ByteValue(b: Byte)
    ensures BinaryValue(BitsOf(b) + Zeros(8)) == 0x100 * (b as int)
  {
    hide BinaryValue;
    assert PowerOfTwo(8) == 256;
    BinaryRoundTrip(b as int, 8);
    NibbleOneMore(BitsOf(b), Zeros(4));
    NibbleOneMore(BitsOf(b) + Zeros(4), Zeros(4));
    assert BitsOf(b) + Zeros(4) + Zeros(4) == BitsOf(b) + Zeros(8);
  }

  function HexNumber(n: nat): string {
    if n < 16 then [HexDigit(n)] else HexNumber(n / 16) + [HexDigit(n % 16)]
  }

  /** toString(16) in upper case and padStart(4, "0"): the four digits of the register. */
  lemma HexPadded(r: Word)
    ensures PadStart(HexNumber(BinaryValue(r)), 4) == HexText(r)
  {
    hide HexDigit, HexNumber, PadStart, Nibble, BinaryValue;
    WordValue(r);
    FourDigits(Nibble(r[0..4]), Nibble(r[4..8]), Nibble(r[8..12]), Nibble(r[12..16]));
  }

  lemma PaddedAppend(n: nat, d: nat, width: nat)
    requires d < 16 && width >= 1
    ensures PadStart(HexNumber(16 * n + d), width + 1) == PadStart(HexNumber(n), width) + [HexDigit(d)]
  {
    hide HexDigit;
    if n == 0 {
      assert HexDigit(0) == '0' by { ZeroDigit(); }
      assert Repeat('0', width) == Repeat('0', width - 1) + ['0'];
    }
  }

  lemma ZeroDigit()
    ensures HexDigit(0) == '0'
  {
  }

  lemma OneDigit(a: nat)
    requires a < 16
    ensures PadStart(HexNumber(a), 1) == [HexDigit(a)]
  {
  }

  lemma FourDigits(a: nat, b: nat, c: nat, d: nat)
    requires a < 16 && b < 16 && c < 16 && d < 16
    ensures PadStart(HexNumber(4096 * a + 256 * b + 16 * c + d), 4)
            == [HexDigit(a)] + [HexDigit(b)] + [HexDigit(c)] + [HexDigit(d)]
  {
    hide *;
    var z, y := 16 * a + b, 256 * a + 16 * b + c;
    OneDigit(a);
    PaddedAppend(a, b, 1);
    PaddedAppend(z, c, 2);
    PaddedAppend(y, d, 3);
    assert 16 * z + c == y && 16 * y + d == 4096 * a + 256 * b + 16 * c + d;
  }

  /** The text is four hexadecimal digits, most significant first, that read as the remainder of the input. */
  method Crc16Ccitt(input: Bytes) returns (hex: string)
    ensures hex == HexText(Crc(input))
    ensures |hex| == 4 && IsHex(hex) && HexValue(hex) == BinaryValue(Crc(input))
    ensures IsRemainder(Dividend(ONES, BitsOfAll(input)), NumberPoly(HexValue(hex)))
  {
    hide Turn, Binary, HexText, Xor, BinaryValue, XorBits, TurnNumber, IsRemainder, NumberPoly, HexValue;
    var crc: nat := 0xFFFF;
    ghost var register: Word := ONES;
    PolynomialValue();
    for i := 0 to |input|
      invariant crc == BinaryValue(register) && CrcFrom(register, input[i..]) == Crc(input)
    {
      assert input[i..][0] == input[i] && input[i..][1..] == input[i + 1..];
      var byte := input[i] as int;
      crc := Xor(crc, 0x100 * byte);
      ByteValue(input[i]);
      XorValue(register, BitsOf(input[i]) + Zeros(8));
      register := XorBits(register, BitsOf(input[i]) + Zeros(8));
      ghost var entered := register;
      for bit := 0 to 8
        invariant crc == BinaryValue(register) && Turns(register, 8 - bit) == Turns(entered, 8)
      {
        TurnValue(register);
        crc := TurnNumber(crc);
        register := Turn(register);
      }
    }
    HexPadded(register);
    HexReadsBack(register);
    PrintedIsRemainder(input);
    hex := PadStart(HexNumber(crc), 4);
  }

  /* ---------------------------------------------------------------------- */
  /* The checksum at the end of a payload                                   */
  /* ---------------------------------------------------------------------- */

  /** Recomputes and compares the last four characters of a payload. */
  predicate VerifyChecksum(payload: Bytes) {
    |payload| >= 8
    && UpperText(payload[|payload| - 4..]) == HexText(Crc(payload[..|payload| - 4]))
  }

  lemma {:induction false} HexValueInjective(s: string, t: string)
    requires IsHex(s) && IsHex(t) && |s| == |t| && HexValue(s) == HexValue(t)
    ensures s == t
    decreases |s|
  {
    if s == "" {
    } else {
      var n := |s| - 1;
      assert HexValue(s) / 16 == HexValue(s[..n]) && HexValue(t) / 16 == HexValue(t[..n]);
      HexValueInjective(s[..n], t[..n]);
      assert s == s[..n] + [s[n]] && t == t[..n] + [t[n]];
    }
  }

  lemma {:induction false} HexValueBound(s: string)
    requires IsHex(s)
    ensures HexValue(s) < PowerOfTwo(4 * |s|)
    decreases |s|
  {
    if s == "" {
    } else {
      HexValueBound(s[..|s| - 1]);
      var k := 4 * (|s| - 1);
      assert PowerOfTwo(k + 4) == 2 * PowerOfTwo(k + 3) == 4 * PowerOfTwo(k + 2) == 8 * PowerOfTwo(k + 1);
    }
  }

  lemma {:induction false} BinaryDigitsDetermine(m: nat, n: nat, k: nat)
    requires m < PowerOfTwo(k) && n < PowerOfTwo(k)
    requires forall e: nat :: e < k ==> (BinaryDigit(m, e) <==> BinaryDigit(n, e))
    ensures m == n
    decreases k
  {
    if k == 0 {
    } else {
      assert BinaryDigit(m, 0) <==> BinaryDigit(n, 0);
      forall e: nat | e < k - 1
        ensures BinaryDigit(m / 2, e) <==> BinaryDigit(n / 2, e)
      {
        assert BinaryDigit(m, e + 1) <==> BinaryDigit(n, e + 1);
      }
      BinaryDigitsDetermine(m / 2, n / 2, k - 1);
    }
  }

  lemma NumberPolyInjective(m: nat, n: nat)
    requires m < PowerOfTwo(16) && n < PowerOfTwo(16) && NumberPoly(m) == NumberPoly(n)
    ensures m == n
  {
    hide BinaryDigit, PowerOfTwo;
    forall e: nat | e < 16
      ensures BinaryDigit(m, e) <==> BinaryDigit(n, e)
    {
      assert e in NumberPoly(m) <==> e in NumberPoly(n);
    }
    BinaryDigitsDetermine(m, n, 16);
  }

  /** Which payloads verify: those whose last four characters, in either case, read as the remainder of the others. */
  lemma VerifiesIff(payload: Bytes)
    ensures VerifyChecksum(payload)
            <==> |payload| >= 8
                 && var n := |payload| - 4;
                    var hex := UpperText(payload[n..]);
                    IsHex(hex) && IsRemainder(Dividend(ONES, BitsOfAll(payload[..n])), NumberPoly(HexValue(hex)))
  {
    hide Crc, HexText, HexValue, NumberPoly, IsRemainder, Dividend, BitsOfAll;
    if |payload| >= 8 {
      var n := |payload| - 4;
      var covered, hex := payload[..n], UpperText(payload[n..]);
      var printed := HexText(Crc(covered));
      PrintedIsRemainder(covered);
      if IsHex(hex) && IsRemainder(Dividend(ONES, BitsOfAll(covered)), NumberPoly(HexValue(hex))) {
        RemainderUnique(Dividend(ONES, BitsOfAll(covered)), NumberPoly(HexValue(hex)), NumberPoly(HexValue(printed)));
        HexValueBound(hex);
        HexValueBound(printed);
        NumberPolyInjective(HexValue(hex), HexValue(printed));
        HexValueInjective(hex, printed);
      }
    }
  }

  /**
   Of two payloads that differ in one byte or in two adjacent bytes before the checksum, at most one verifies: a
   payload that verifies no longer does after such a change.
   */
  lemma ChangedPayloadFails(before: Bytes, a: Bytes, b: Bytes, after: Bytes, checksum: Bytes)
    requires |a| == |b| <= 2 && a != b && |checksum| == 4
    ensures VerifyChecksum(before + a + after + checksum) ==> !VerifyChecksum(before + b + after + checksum)
  {
    hide Crc, UpperText, HexText;
    var x, y := before + a + after, before + b + after;
    assert (x + checksum)[..|x|] == x && (y + checksum)[..|y|] == y;
    assert (x + checksum)[|x|..] == checksum == (y + checksum)[|y|..];
    ByteChangesDetected(before, a, b, after);
    if VerifyChecksum(x + checksum) && VerifyChecksum(y + checksum) {
      HexInjective(Crc(x), Crc(y));
    }
  }
}

/** Strings as the source uses them: decimal numbers, padding, trimming, join and split. */
module Text {

  /* ---------------------------------------------------------------------- */
  /* Decimal numbers                                                        */
  /* ---------------------------------------------------------------------- */

  predicate IsDigit(c: char) {
    '0' <= c <= '9'
  }

  function Digit(n: nat): (c: char)
    requires n < 10
    ensures IsDigit(c)
  {
    (48 + n) as char
  }

  function DigitValue(c: char): (n: nat)
    requires IsDigit(c)
    ensures n < 10 && Digit(n) == c
  {
    c as int - 48
  }

  predicate AllDigits(s: string) {
    forall i :: 0 <= i < |s| ==> IsDigit(s[i])
  }

  /** String(n) of a non-negative integer. */
  function Decimal(n: nat): (s: string)
    ensures |s| > 0 && AllDigits(s)
  {
    if n < 10 then [Digit(n)] else Decimal(n / 10) + [Digit(n % 10)]
  }

  /** The number a digit string denotes; leading zeros do not matter. */
  function DecimalValue(s: string): nat
    requires AllDigits(s)
  {
    if s == [] then 0 else 10 * DecimalValue(s[..|s| - 1]) + DigitValue(s[|s| - 1])
  }

  lemma {:induction false} DecimalRoundTrip(n: nat)
    ensures DecimalValue(Decimal(n)) == n
  {
    if n >= 10 {
      DecimalRoundTrip(n / 10);
      var s := Decimal(n);
      assert s[..|s| - 1] == Decimal(n / 10);
    } else {
      assert Decimal(n)[..0] == [];
    }
  }

  /** The digits are the ten characters in their usual order. */
  lemma DigitCharacters(n: nat)
    requires n < 10
    ensures Digit(n) == "0123456789"[n] && DigitValue("0123456789"[n]) == n
  {
  }

  /** Only zero starts with a zero. */
  lemma {:induction false} NoLeadingZero(n: nat)
    ensures Decimal(n)[0] == '0' <==> n == 0
  {
    if n < 10 {
    } else {
      NoLeadingZero(n / 10);
      assert Decimal(n)[0] == Decimal(n / 10)[0];
    }
  }

  /** String(n) of any integer. */
  function IntText(n: int): (s: string)
    ensures |s| > 0
    ensures forall c :: c in s ==> IsDigit(c) || c == '-'
  {
    if n < 0 then "-" + Decimal(-n) else Decimal(n)
  }

  predicate IsIntText(s: string) {
    if |s| > 0 && s[0] == '-' then |s| > 1 && AllDigits(s[1..]) else |s| > 0 && AllDigits(s)
  }

  function IntValue(s: string): int
    requires IsIntText(s)
  {
    if s[0] == '-' then 0 - DecimalValue(s[1..]) else DecimalValue(s)
  }

  lemma IntRoundTrip(n: int)
    ensures IsIntText(IntText(n)) && IntValue(IntText(n)) == n
  {
    if n < 0 {
      DecimalRoundTrip(-n);
      assert IntText(n)[1..] == Decimal(-n);
    } else {
      DecimalRoundTrip(n);
    }
  }

  function Repeat(c: char, n: nat): (s: string)
    ensures |s| == n && forall i :: 0 <= i < n ==> s[i] == c
  {
    seq(n, _ => c)
  }

  /** padStart(width, "0"). */
  function PadStart(s: string, width: nat): (r: string)
    ensures |r| == if |s| < width then width else |s|
    ensures AllDigits(s) ==> AllDigits(r)
  {
    if |s| >= width then s else Repeat('0', width - |s|) + s
  }

  /** padStart(2, "0") of a number below 100 is its two digits. */
  lemma PaddedTwoDigits(n: nat)
    requires n < 100
    ensures PadStart(Decimal(n), 2) == [Digit(n / 10), Digit(n % 10)]
  {
    if n < 10 {
      assert Repeat('0', 1) == [Digit(0)];
    } else {
      assert Decimal(n / 10) == [Digit(n / 10)];
    }
  }

  lemma {:induction false} LeadingZeros(k: nat, s: string)
    requires AllDigits(s)
    ensures AllDigits(Repeat('0', k) + s)
    ensures DecimalValue(Repeat('0', k) + s) == DecimalValue(s)
    decreases |s|, k
  {
    var p := Repeat('0', k) + s;
    if s == [] {
      if k == 0 {
      } else {
        LeadingZeros(k - 1, s);
        assert p[..k - 1] == Repeat('0', k - 1) + s;
      }
    } else {
      LeadingZeros(k, s[..|s| - 1]);
      assert p[..|p| - 1] == Repeat('0', k) + s[..|s| - 1];
    }
  }

  lemma PaddedRoundTrip(n: nat, width: nat)
    ensures AllDigits(PadStart(Decimal(n), width))
    ensures DecimalValue(PadStart(Decimal(n), width)) == n
  {
    DecimalRoundTrip(n);
    if |Decimal(n)| < width {
      LeadingZeros(width - |Decimal(n)|, Decimal(n));
    }
  }

  function PowerOfTen(k: nat): nat {
    if k == 0 then 1 else 10 * PowerOfTen(k - 1)
  }

  lemma {:induction false} DecimalLength(n: nat, k: nat)
    requires k >= 1 && n < PowerOfTen(k)
    ensures |Decimal(n)| <= k
  {
    if n < 10 || k == 1 {
    } else {
      DecimalLength(n / 10, k - 1);
    }
  }

  /* ---------------------------------------------------------------------- */
  /* Upper case                                                             */
  /* ---------------------------------------------------------------------- */

  /** toUpperCase on the letters that IBANs and checksums use. */
  function Upper(c: char): char {
    if 'a' <= c <= 'z' then c - ' ' else c
  }

  function UpperText(s: string): (r: string)
    ensures |r| == |s| && forall i :: 0 <= i < |s| ==> r[i] == Upper(s[i])
  {
    seq(|s|, i requires 0 <= i < |s| => Upper(s[i]))
  }

  /** The same text with small letters A to Z. */
  function LowerText(s: string): (r: string)
    ensures |r| == |s| && forall i :: 0 <= i < |s| ==> r[i] == if 'A' <= s[i] <= 'Z' then s[i] + ' ' else s[i]
  {
    seq(|s|, i requires 0 <= i < |s| => if 'A' <= s[i] <= 'Z' then s[i] + ' ' else s[i])
  }

  /* ---------------------------------------------------------------------- */
  /* White space                                                            */
  /* ---------------------------------------------------------------------- */

  /** The characters that the regular expression class \s and String.trim treat as white space. */
  predicate IsSpace(c: char) {
    var n := c as int;
    || 9 <= n <= 13 || n == 0x20 || n == 0xA0 || n == 0x1680 || 0x2000 <= n <= 0x200A
    || n == 0x2028 || n == 0x2029 || n == 0x202F || n == 0x205F || n == 0x3000 || n == 0xFEFF
  }

  function TrimStart(s: string): (r: string)
    ensures |r| <= |s| && r == s[|s| - |r|..]
    ensures forall i :: 0 <= i < |s| - |r| ==> IsSpace(s[i])
    ensures r != [] ==> !IsSpace(r[0])
  {
    if s != [] && IsSpace(s[0]) then TrimStart(s[1..]) else s
  }

  function TrimEnd(s: string): (r: string)
    ensures |r| <= |s| && r == s[..|r|]
    ensures forall i :: |r| <= i < |s| ==> IsSpace(s[i])
    ensures r != [] ==> !IsSpace(r[|r| - 1])
  {
    if s != [] && IsSpace(s[|s| - 1]) then TrimEnd(s[..|s| - 1]) else s
  }

  function Trim(s: string): string {
    TrimEnd(TrimStart(s))
  }

  /** Nothing remains exactly when there is nothing but white space. */
  lemma TrimEmptyIff(s: string)
    ensures Trim(s) == "" <==> forall c :: c in s ==> IsSpace(c)
  {
    hide IsSpace;
    var t := TrimStart(s);
    if Trim(s) == "" {
      assert t == "";
    } else {
      assert t[0] == Trim(s)[0] && t[0] == s[|s| - |t|];
    }
  }

  /** What remains after a replace of every match of a character class by the empty string. */
  function Without(s: string, drop: char -> bool): (r: string)
    ensures forall c :: c in r ==> c in s && !drop(c)
  {
    if s == [] then [] else (if drop(s[0]) then [] else [s[0]]) + Without(s[1..], drop)
  }

  lemma {:induction false} NothingDropped(s: string, drop: char -> bool)
    requires forall i :: 0 <= i < |s| ==> !drop(s[i])
    ensures Without(s, drop) == s
  {
    if s == [] {
    } else {
      NothingDropped(s[1..], drop);
    }
  }

  lemma {:induction false} WithoutConcat(a: string, b: string, drop: char -> bool)
    ensures Without(a + b, drop) == Without(a, drop) + Without(b, drop)
  {
    if a == [] {
      assert a + b == b;
    } else {
      assert (a + b)[1..] == a[1..] + b;
      WithoutConcat(a[1..], b, drop);
    }
  }

  function Take(s: string, n: nat): (r: string)
    ensures |r| <= n && r <= s
  {
    if |s| <= n then s else s[..n]
  }

  /* ---------------------------------------------------------------------- */
  /* Join and split                                                         */
  /* ---------------------------------------------------------------------- */

  function Join<T>(parts: seq<seq<T>>, separator: seq<T>): seq<T> {
    if parts == [] then []
    else if |parts| == 1 then parts[0]
    else parts[0] + separator + Join(parts[1..], separator)
  }

  lemma {:induction false} InJoin<T>(parts: seq<seq<T>>, separator: seq<T>, i: nat, x: T)
    requires i < |parts| && x in parts[i]
    ensures x in Join(parts, separator)
    decreases i
  {
    if |parts| == 1 || i == 0 {
    } else {
      InJoin(parts[1..], separator, i - 1, x);
    }
  }

  lemma {:induction false} JoinOneMore<T>(parts: seq<seq<T>>, separator: seq<T>, last: seq<T>)
    requires parts != []
    ensures Join(parts + [last], separator) == Join(parts, separator) + separator + last
  {
    var more := parts + [last];
    if |parts| == 1 {
      assert more[1..] == [last];
    } else {
      assert more[1..] == parts[1..] + [last];
      JoinOneMore(parts[1..], separator, last);
    }
  }

  function Split<T(==)>(s: seq<T>, separator: T): (parts: seq<seq<T>>)
    ensures |parts| >= 1
  {
    if s == [] then [[]]
    else
      var rest := Split(s[1..], separator);
      if s[0] == separator then [[]] + rest else [[s[0]] + rest[0]] + rest[1..]
  }

  lemma {:induction false} SplitConcat<T>(a: seq<T>, separator: T, b: seq<T>)
    ensures |Split(a + [separator] + b, separator)| == |Split(a, separator)| + |Split(b, separator)|
    ensures separator !in a ==> Split(a + [separator] + b, separator) == [a] + Split(b, separator)
  {
    var s := a + [separator] + b;
    if a == [] {
      assert s[1..] == b;
    } else {
      assert s[1..] == a[1..] + [separator] + b;
      SplitConcat(a[1..], separator, b);
      assert a == [a[0]] + a[1..];
    }
  }

  lemma {:induction false} SplitWhole<T>(s: seq<T>, separator: T)
    ensures separator !in s <==> |Split(s, separator)| == 1
    ensures separator !in s ==> Split(s, separator) == [s]
  {
    if s == [] {
    } else {
      SplitWhole(s[1..], separator);
      assert s == [s[0]] + s[1..];
    }
  }

  /** Splitting undoes joining exactly when no part contains the separator. */
  lemma {:induction false} SplitJoin<T>(parts: seq<seq<T>>, separator: T)
    requires parts != []
    ensures |Split(Join(parts, [separator]), separator)| >= |parts|
    ensures (forall p :: p in parts ==> separator !in p) ==> Split(Join(parts, [separator]), separator) == parts
    ensures (exists p :: p in parts && separator in p) ==> |Split(Join(parts, [separator]), separator)| > |parts|
    decreases |parts|
  {
    SplitWhole(parts[0], separator);
    if |parts| == 1 {
      assert parts == [parts[0]];
    } else {
      SplitJoin(parts[1..], separator);
      SplitConcat(parts[0], separator, Join(parts[1..], [separator]));
      assert parts == [parts[0]] + parts[1..];
    }
  }
}

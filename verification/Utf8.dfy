/**
 The UTF-8 bytes of text (TextEncoder), and slicing by UTF-16 code units. Text is a sequence of Unicode scalar values;
 a slice that cuts a surrogate pair leaves a lone half, which TextEncoder writes as U+FFFD.
 */
module Utf8 {
  import opened Wrappers
  import opened Crc16

  function ByteAt(n: nat): (b: Byte)
    requires n < 256
    ensures b as int == n
  {
    n as char
  }

  function EncodeChar(c: char): (s: Bytes)
    ensures 1 <= |s| <= 4
  {
    var n := c as int;
    if n < 0x80 then [ByteAt(n)]
    else if n < 0x800 then [ByteAt(0xC0 + n / 0x40), ByteAt(0x80 + n % 0x40)]
    else if n < 0x10000 then [ByteAt(0xE0 + n / 0x1000), ByteAt(0x80 + n / 0x40 % 0x40), ByteAt(0x80 + n % 0x40)]
    else [ByteAt(0xF0 + n / 0x40000), ByteAt(0x80 + n / 0x1000 % 0x40), ByteAt(0x80 + n / 0x40 % 0x40),
          ByteAt(0x80 + n % 0x40)]
  }

  function EncodeText(s: string): Bytes {
    if s == "" then [] else EncodeChar(s[0]) + EncodeText(s[1..])
  }

  /** How many bytes the character has whose first byte this is. */
  function LeadLength(b: Byte): nat {
    if b as int < 0x80 then 1 else if b as int < 0xE0 then 2 else if b as int < 0xF0 then 3 else 4
  }

  function Low(b: Byte): int {
    b as int - 0x80
  }

  function CodePoint(s: Bytes): int
    requires 1 <= |s| <= 4
  {
    var lead := s[0] as int;
    if |s| == 1 then lead
    else if |s| == 2 then (lead - 0xC0) * 0x40 + Low(s[1])
    else if |s| == 3 then (lead - 0xE0) * 0x1000 + Low(s[1]) * 0x40 + Low(s[2])
    else (lead - 0xF0) * 0x40000 + Low(s[1]) * 0x1000 + Low(s[2]) * 0x40 + Low(s[3])
  }

  predicate IsScalar(n: int) {
    0 <= n < 0xD800 || 0xE000 <= n < 0x110000
  }

  /** Reads text back from its bytes; nothing else that decodes to it is told apart. */
  function DecodeText(s: Bytes): Option<string> {
    if s == [] then Some("")
    else
      var n := LeadLength(s[0]);
      if |s| < n || !IsScalar(CodePoint(s[..n])) then None
      else
        var rest := DecodeText(s[n..]);
        if rest.None? then None else Some([CodePoint(s[..n]) as char] + rest.value)
  }

  lemma SixBits(n: nat)
    ensures n == 0x40 * (n / 0x40) + n % 0x40
    ensures n / 0x1000 == n / 0x40 / 0x40 && n / 0x40000 == n / 0x1000 / 0x40
  {
  }

  lemma CharRoundTrip(c: char)
    ensures LeadLength(EncodeChar(c)[0]) == |EncodeChar(c)|
    ensures CodePoint(EncodeChar(c)) == c as int && IsScalar(c as int)
  {
    var n := c as int;
    SixBits(n);
    SixBits(n / 0x40);
    SixBits(n / 0x1000);
    if n < 0x800 {
    } else if n < 0x10000 {
      assert n / 0x1000 < 0x10;
    } else {
      assert n / 0x40000 < 5;
    }
  }

  /** Text is determined by its bytes. */
  lemma {:induction false} TextRoundTrip(s: string)
    ensures DecodeText(EncodeText(s)) == Some(s)
  {
    hide EncodeChar, CodePoint, LeadLength;
    if s == "" {
    } else {
      var head, tail := EncodeChar(s[0]), EncodeText(s[1..]);
      CharRoundTrip(s[0]);
      TextRoundTrip(s[1..]);
      var b := head + tail;
      assert s == [s[0]] + s[1..];
      assert b[..|head|] == head && b[|head|..] == tail && b[0] == head[0];
    }
  }

  lemma {:induction false} EncodeConcat(s: string, t: string)
    ensures EncodeText(s + t) == EncodeText(s) + EncodeText(t)
  {
    if s == "" {
      assert s + t == t;
    } else {
      assert (s + t)[1..] == s[1..] + t;
      EncodeConcat(s[1..], t);
    }
  }

  predicate IsAscii(s: string) {
    forall i :: 0 <= i < |s| ==> s[i] as int < 0x80
  }

  lemma {:induction false} AsciiIsItself(s: string)
    requires IsAscii(s)
    ensures |EncodeText(s)| == |s| && forall i :: 0 <= i < |s| ==> EncodeText(s)[i] == s[i]
  {
    if s == "" {
    } else {
      AsciiIsItself(s[1..]);
    }
  }

  /** The code units of one character. */
  function Units(c: char): nat {
    if c as int >= 0x10000 then 2 else 1
  }

  /** slice(0, n). */
  function Slice(s: string, n: nat): string {
    if s == "" || n == 0 then ""
    else if Units(s[0]) <= n then [s[0]] + Slice(s[1..], n - Units(s[0]))
    else ['\U{FFFD}']
  }

  /** A code unit takes at most three bytes. */
  lemma {:induction false} SliceBytes(s: string, n: nat)
    ensures |EncodeText(Slice(s, n))| <= 3 * n
    decreases |s|
  {
    if s == "" || n == 0 {
    } else if Units(s[0]) > n {
      assert ['\U{FFFD}'][1..] == "";
    } else {
      SliceBytes(s[1..], n - Units(s[0]));
      assert Slice(s, n)[1..] == Slice(s[1..], n - Units(s[0]));
    }
  }

  function UnitsOf(s: string): nat {
    if s == "" then 0 else Units(s[0]) + UnitsOf(s[1..])
  }

  /** Characters of the basic plane are one code unit each, the others two. */
  lemma {:induction false} UnitsCount(s: string)
    ensures (forall i :: 0 <= i < |s| ==> s[i] as int < 0x10000) ==> UnitsOf(s) == |s|
    ensures (forall i :: 0 <= i < |s| ==> s[i] as int >= 0x10000) ==> UnitsOf(s) == 2 * |s|
  {
    if s == "" {
    } else {
      UnitsCount(s[1..]);
      assert forall i :: 0 <= i < |s| - 1 ==> s[1..][i] == s[i + 1];
    }
  }

  /** Text that fits is not cut, and longer text keeps its first n code units. */
  lemma {:induction false} SliceMeaning(s: string, n: nat)
    ensures UnitsOf(Slice(s, n)) == if UnitsOf(s) <= n then UnitsOf(s) else n
    ensures UnitsOf(s) <= n ==> Slice(s, n) == s
    decreases |s|
  {
    if s == "" || n == 0 {
    } else if Units(s[0]) <= n {
      SliceMeaning(s[1..], n - Units(s[0]));
      assert Slice(s, n)[1..] == Slice(s[1..], n - Units(s[0]));
      assert s == [s[0]] + s[1..];
    } else {
      assert UnitsOf(['\U{FFFD}']) == 1 + UnitsOf("");
    }
  }

  /** What is kept is a prefix, with a replacement character where the cut goes through a character. */
  lemma {:induction false} SliceKeepsPrefix(s: string, n: nat) returns (kept: nat)
    ensures kept <= |s| && (Slice(s, n) == s[..kept] || Slice(s, n) == s[..kept] + ['\U{FFFD}'])
    decreases |s|
  {
    kept := 0;
    if s == "" || n == 0 {
    } else if Units(s[0]) <= n {
      var rest := SliceKeepsPrefix(s[1..], n - Units(s[0]));
      kept := rest + 1;
      assert s[..kept] == [s[0]] + s[1..][..rest];
    }
  }
}

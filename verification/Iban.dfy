/** Angolan IBANs: MOD 97-10 check digits (ISO 13616-1 with ISO/IEC 7064; qr-payment.ts). */
module Iban {
  import opened Text

  predicate IsSeparator(c: char) {
    IsSpace(c) || c == '-'
  }

  /** Removes white space and hyphens, and upper-cases. */
  function NormalizeIban(iban: string): string {
    UpperText(Without(iban, IsSeparator))
  }

  /** AO and 23 digits. */
  predicate IsIban(s: string) {
    |s| == 25 && s[0] == 'A' && s[1] == 'O' && AllDigits(s[2..])
  }

  /** A bare account number of 21 digits. */
  predicate IsBban(s: string) {
    |s| == 21 && AllDigits(s)
  }

  predicate IsDigitOrLetter(c: char) {
    IsDigit(c) || 'A' <= c <= 'Z'
  }

  /** Letters become their numbers: A is 10, Z is 35. */
  function LettersToDigits(s: string): (r: string)
    requires forall i :: 0 <= i < |s| ==> IsDigitOrLetter(s[i])
    ensures AllDigits(r)
  {
    if s == [] then []
    else
      assert IsDigitOrLetter(s[0]);
      (if IsDigit(s[0]) then [s[0]] else Decimal(s[0] as int - 55)) + LettersToDigits(s[1..])
  }

  /** The remainder of a digit string by 97, one digit at a time. */
  function Fold(remainder: nat, digits: string): nat
    requires AllDigits(digits)
    decreases |digits|
  {
    if digits == [] then remainder else Fold((remainder * 10 + DigitValue(digits[0])) % 97, digits[1..])
  }

  method Mod97(digits: string) returns (remainder: nat)
    requires AllDigits(digits)
    ensures remainder == Fold(0, digits)
  {
    remainder := 0;
    for i := 0 to |digits|
      invariant Fold(remainder, digits[i..]) == Fold(0, digits)
    {
      assert digits[i..][0] == digits[i] && digits[i..][1..] == digits[i + 1..];
      remainder := (remainder * 10 + DigitValue(digits[i])) % 97;
    }
  }

  /** The check value of an account number: 98 minus the remainder with the check digits set to 00. */
  function CheckValue(bban: string): (n: int)
    requires IsBban(bban)
    ensures 2 <= n <= 98
  {
    FoldBound(0, bban + "102400");
    98 - Fold(0, bban + "102400")
  }

  function ToAngolaIbanValue(value: string): string {
    var normalized := NormalizeIban(value);
    if IsIban(normalized) then normalized
    else if IsBban(normalized) then "AO" + PadStart(Decimal(CheckValue(normalized)), 2) + normalized
    else normalized
  }

  predicate IsValidValue(iban: string) {
    var normalized := ToAngolaIbanValue(iban);
    IsIban(normalized) && Fold(0, normalized[4..] + "1024" + normalized[2..4]) == 1
  }

  /** AO and two digits move to the end and their letters become 1024. */
  lemma Rearranged(s: string)
    requires IsIban(s)
    ensures forall i :: 0 <= i < 25 ==> IsDigitOrLetter((s[4..] + s[..4])[i])
    ensures LettersToDigits(s[4..] + s[..4]) == s[4..] + "1024" + s[2..4]
  {
    assert s[..4] == "AO" + s[2..4];
    assert s[4..] == s[2..][2..] && s[2..4] == s[2..][..2];
    LettersOfDigits(s[4..], s[..4]);
    LettersOfDigits(s[2..4], "");
    assert s[2..4] + "" == s[2..4];
    assert Decimal(10) == "10" && Decimal(24) == "24" by {
      assert Decimal(1) == "1" && Decimal(2) == "2";
    }
    var t := s[..4];
    assert t[1..] == "O" + s[2..4] && t[1..][1..] == s[2..4];
    calc {
      LettersToDigits(t);
      "10" + LettersToDigits(t[1..]);
      "10" + ("24" + LettersToDigits(s[2..4]));
      "1024" + s[2..4];
    }
  }

  lemma {:induction false} LettersOfDigits(digits: string, rest: string)
    requires AllDigits(digits) && forall i :: 0 <= i < |rest| ==> IsDigitOrLetter(rest[i])
    ensures LettersToDigits(digits + rest) == digits + LettersToDigits(rest)
    decreases |digits|
  {
    if digits == [] {
      assert digits + rest == rest;
    } else {
      assert (digits + rest)[1..] == digits[1..] + rest;
      LettersOfDigits(digits[1..], rest);
    }
  }

  method ToAngolaIban(value: string) returns (iban: string)
    ensures iban == ToAngolaIbanValue(value)
  {
    var normalized := NormalizeIban(value);
    if IsIban(normalized) {
      return normalized;
    }
    if IsBban(normalized) {
      BbanDigits(normalized);
      var remainder := Mod97(LettersToDigits(normalized + "AO00"));
      FoldBound(0, normalized + "102400");
      return "AO" + PadStart(Decimal(98 - remainder), 2) + normalized;
    }
    return normalized;
  }

  lemma BbanDigits(bban: string)
    requires IsBban(bban)
    ensures forall i :: 0 <= i < 25 ==> IsDigitOrLetter((bban + "AO00")[i])
    ensures LettersToDigits(bban + "AO00") == bban + "102400"
  {
    var s := "AO00" + bban;
    assert s[4..] == bban && s[..4] == "AO00" && s[2..4] == "00";
    assert forall i :: 2 <= i < 25 ==> IsDigit(s[i]);
    Rearranged(s);
    assert bban + "1024" + "00" == bban + "102400";
  }

  method IsValidAngolaIban(iban: string) returns (valid: bool)
    ensures valid == IsValidValue(iban)
  {
    var normalized := ToAngolaIban(iban);
    if !IsIban(normalized) {
      return false;
    }
    Rearranged(normalized);
    var remainder := Mod97(LettersToDigits(normalized[4..] + normalized[..4]));
    return remainder == 1;
  }

  /* ---------------------------------------------------------------------- */
  /* The fold                                                               */
  /* ---------------------------------------------------------------------- */

  lemma {:induction false} FoldConcat(r: nat, a: string, b: string)
    requires AllDigits(a) && AllDigits(b)
    ensures Fold(r, a + b) == Fold(Fold(r, a), b)
    decreases |a|
  {
    if a == [] {
      assert a + b == b;
    } else {
      assert (a + b)[1..] == a[1..] + b;
      FoldConcat((r * 10 + DigitValue(a[0])) % 97, a[1..], b);
    }
  }

  lemma {:induction false} FoldBound(r: nat, digits: string)
    requires AllDigits(digits) && r < 97
    ensures Fold(r, digits) < 97
    decreases |digits|
  {
    if digits == [] {
    } else {
      FoldBound((r * 10 + DigitValue(digits[0])) % 97, digits[1..]);
    }
  }

  /** 10 times 68 is 1 modulo 97, so the remainder before a digit can be recovered from the remainder after it. */
  lemma StepInvertible(r: nat, d: nat)
    requires r < 97
    ensures (68 * ((r * 10 + d) % 97) - 68 * d) % 97 == r
  {
    UndoStep(r, d, (r * 10 + d) % 97, (r * 10 + d) / 97);
  }

  lemma UndoStep(r: nat, d: nat, q: int, k: int)
    requires r < 97 && r * 10 + d == q + 97 * k
    ensures (68 * q - 68 * d) % 97 == r
  {
    AddMultiple(r, 7 * r - 68 * k);
    assert 68 * q - 68 * d == r + 97 * (7 * r - 68 * k);
  }

  lemma StepInjective(r: nat, s: nat, d: nat)
    requires r < 97 && s < 97 && (r * 10 + d) % 97 == (s * 10 + d) % 97
    ensures r == s
  {
    StepInvertible(r, d);
    StepInvertible(s, d);
  }

  lemma {:induction false} FoldInjective(r: nat, s: nat, digits: string)
    requires AllDigits(digits) && r < 97 && s < 97 && Fold(r, digits) == Fold(s, digits)
    ensures r == s
    decreases |digits|
  {
    if digits == [] {
    } else {
      var d := DigitValue(digits[0]);
      FoldInjective((r * 10 + d) % 97, (s * 10 + d) % 97, digits[1..]);
      StepInjective(r, s, d);
    }
  }

  /** One digit in another's place, or two distinct neighbours swapped, changes the remainder. */
  predicate SingleError(a: string, b: string) {
    || (|a| == |b| == 1 && a != b)
    || (|a| == |b| == 2 && a[0] == b[1] && a[1] == b[0] && a != b)
  }

  lemma ErrorChangesRemainder(r: nat, a: string, b: string)
    requires r < 97 && AllDigits(a) && AllDigits(b) && SingleError(a, b)
    ensures Fold(r, a) != Fold(r, b)
  {
    hide Fold;
    if |a| == 1 {
      OneDigitFold(r, a);
      OneDigitFold(r, b);
      assert a == [Digit(DigitValue(a[0]))] && b == [Digit(DigitValue(b[0]))];
      SubstitutionChanges(r, DigitValue(a[0]), DigitValue(b[0]));
    } else {
      TwoDigitFold(r, a);
      TwoDigitFold(r, b);
      assert a == [Digit(DigitValue(a[0])), Digit(DigitValue(a[1]))];
      assert b == [Digit(DigitValue(a[1])), Digit(DigitValue(a[0]))];
      SwapChanges(r, DigitValue(a[0]), DigitValue(a[1]));
    }
  }

  lemma OneDigitFold(r: nat, a: string)
    requires AllDigits(a) && |a| == 1
    ensures Fold(r, a) == (r * 10 + DigitValue(a[0])) % 97
  {
    assert a[1..] == [];
  }

  lemma TwoDigitFold(r: nat, a: string)
    requires AllDigits(a) && |a| == 2
    ensures Fold(r, a) == (r * 100 + DigitValue(a[0]) * 10 + DigitValue(a[1])) % 97
  {
    var x, y := DigitValue(a[0]), DigitValue(a[1]);
    OneDigitFold((r * 10 + x) % 97, a[1..]);
    ReduceFirst(r * 10 + x, y);
  }

  lemma ReduceFirst(m: nat, y: nat)
    ensures (m % 97 * 10 + y) % 97 == (m * 10 + y) % 97
  {
    AddMultiple(m % 97 * 10 + y, m / 97 * 10);
    assert m == m / 97 * 97 + m % 97;
  }

  lemma AddMultiple(a: int, k: int)
    ensures (a + 97 * k) % 97 == a % 97
  {
  }

  lemma SubstitutionChanges(r: nat, x: nat, y: nat)
    requires x < 10 && y < 10 && x != y
    ensures (r * 10 + x) % 97 != (r * 10 + y) % 97
  {
  }

  lemma SwapChanges(r: nat, x: nat, y: nat)
    requires x < 10 && y < 10 && x != y
    ensures (r * 100 + x * 10 + y) % 97 != (r * 100 + y * 10 + x) % 97
  {
  }

  /* ---------------------------------------------------------------------- */
  /* What the check digits give                                             */
  /* ---------------------------------------------------------------------- */

  lemma {:induction false} UpperOfIban(s: string)
    requires forall i :: 0 <= i < |s| ==> IsDigitOrLetter(s[i])
    ensures NormalizeIban(s) == s
  {
    NothingDropped(s, IsSeparator);
  }

  function WithCheck(n: nat, bban: string): string
    requires n < 100
  {
    "AO" + [Digit(n / 10), Digit(n % 10)] + bban
  }

  lemma WithCheckParts(n: nat, bban: string)
    requires n < 100 && IsBban(bban)
    ensures var s := WithCheck(n, bban);
            IsIban(s) && s[4..] == bban && s[2..4] == [Digit(n / 10), Digit(n % 10)] && ToAngolaIbanValue(s) == s
  {
    var s := WithCheck(n, bban);
    assert s[2..] == [Digit(n / 10), Digit(n % 10)] + bban;
    UpperOfIban(s);
  }

  /** An account number with check value n is valid exactly when n is 98 minus the remainder, up to multiples of 97. */
  lemma ValidIffCheck(n: nat, bban: string)
    requires n < 100 && IsBban(bban)
    ensures IsValidValue(WithCheck(n, bban)) <==> n % 97 == CheckValue(bban) % 97
  {
    WithCheckParts(n, bban);
    hide Fold, NormalizeIban;
    var head := bban + "1024";
    var r := Fold(0, head);
    FoldConcat(0, head, [Digit(n / 10), Digit(n % 10)]);
    FoldConcat(0, head, "00");
    assert head + "00" == bban + "102400";
    TwoDigitFold(r, [Digit(n / 10), Digit(n % 10)]);
    TwoDigitFold(r, "00");
    DigitOfValue(n / 10);
    DigitOfValue(n % 10);
    CheckArithmetic(r, n);
  }

  lemma DigitOfValue(d: nat)
    requires d < 10
    ensures DigitValue(Digit(d)) == d
  {
  }

  lemma CheckArithmetic(r: nat, n: nat)
    requires n < 100
    ensures (r * 100 + n / 10 * 10 + n % 10) % 97 == 1 <==> n % 97 == (98 - (r * 100 + 0 * 10 + 0) % 97) % 97
  {
    var m := r * 100;
    assert n / 10 * 10 + n % 10 == n;
    AddMultiple(m % 97 + n, m / 97);
    assert m % 97 + n + 97 * (m / 97) == m + n;
    SmallArithmetic(m % 97, n);
  }

  lemma SmallArithmetic(u: nat, n: nat)
    requires u < 97 && n < 100
    ensures (u + n) % 97 == 1 <==> n % 97 == (98 - u) % 97
  {
  }

  /** Every 21-digit account number is promoted to a valid IBAN that ends with it, and is itself accepted. */
  lemma BbanPromotes(bban: string)
    requires IsBban(bban)
    ensures IsValidValue(bban) && IsValidValue(ToAngolaIbanValue(bban))
    ensures IsIban(ToAngolaIbanValue(bban)) && ToAngolaIbanValue(bban)[4..] == bban
  {
    UpperOfIban(bban);
    var n := CheckValue(bban);
    PaddedTwoDigits(n);
    assert ToAngolaIbanValue(bban) == WithCheck(n, bban);
    WithCheckParts(n, bban);
    ValidIffCheck(n, bban);
  }

  /** No other check value from 02 to 98 makes the account number valid. */
  lemma CheckValueUnique(bban: string, n: nat)
    requires IsBban(bban) && 2 <= n <= 98
    ensures IsValidValue(WithCheck(n, bban)) <==> n == CheckValue(bban)
  {
    hide IsValidValue, CheckValue;
    ValidIffCheck(n, bban);
  }

  lemma ValidAsFold(n: nat, bban: string)
    requires n < 100 && IsBban(bban)
    ensures IsValidValue(WithCheck(n, bban)) <==> Fold(0, bban + ("1024" + [Digit(n / 10), Digit(n % 10)])) == 1
  {
    hide Fold, NormalizeIban;
    WithCheckParts(n, bban);
    var dd := [Digit(n / 10), Digit(n % 10)];
    assert bban + "1024" + dd == bban + ("1024" + dd);
  }

  /** After equal digits that end equal, a single error never goes unnoticed. */
  lemma ErrorInContext(before: string, a: string, b: string, after: string)
    requires AllDigits(before) && AllDigits(a) && AllDigits(b) && AllDigits(after) && SingleError(a, b)
    ensures Fold(0, before + a + after) != Fold(0, before + b + after)
  {
    hide Fold, SingleError;
    var r := Fold(0, before);
    FoldBound(0, before);
    FoldBound(r, a);
    FoldBound(r, b);
    assert before + a + after == before + (a + after) && before + b + after == before + (b + after);
    FoldConcat(0, before, a + after);
    FoldConcat(0, before, b + after);
    FoldConcat(r, a, after);
    FoldConcat(r, b, after);
    ErrorChangesRemainder(r, a, b);
    if Fold(Fold(r, a), after) == Fold(Fold(r, b), after) {
      FoldInjective(Fold(r, a), Fold(r, b), after);
    }
  }

  lemma PartsAreDigits(before: string, a: string, after: string)
    requires AllDigits(before + a + after)
    ensures AllDigits(before) && AllDigits(a) && AllDigits(after)
  {
    var x := before + a + after;
    assert forall i :: 0 <= i < |before| ==> before[i] == x[i];
    assert forall i :: 0 <= i < |a| ==> a[i] == x[|before| + i];
    assert forall i :: 0 <= i < |after| ==> after[i] == x[|before| + |a| + i];
  }

  /**
   A valid IBAN is rejected after a single-digit substitution or a swap of distinct neighbours in its account number.
   */
  lemma SingleErrorRejected(n: nat, before: string, a: string, b: string, after: string)
    requires n < 100 && SingleError(a, b)
    requires IsBban(before + a + after) && IsBban(before + b + after)
    ensures IsValidValue(WithCheck(n, before + a + after)) ==> !IsValidValue(WithCheck(n, before + b + after))
  {
    hide Fold, SingleError, IsValidValue;
    var tail := "1024" + [Digit(n / 10), Digit(n % 10)];
    PartsAreDigits(before, a, after);
    PartsAreDigits(before, b, after);
    ValidAsFold(n, before + a + after);
    ValidAsFold(n, before + b + after);
    assert before + a + after + tail == before + a + (after + tail);
    assert before + b + after + tail == before + b + (after + tail);
    ErrorInContext(before, a, b, after + tail);
    assert Fold(0, before + a + after + tail) != Fold(0, before + b + after + tail);
  }

  /* ---------------------------------------------------------------------- */
  /* Canonical form                                                         */
  /* ---------------------------------------------------------------------- */

  /** Grouping an account number with spaces or hyphens changes nothing. */
  lemma SeparatorsIgnored(a: string, separator: char, b: string)
    requires IsSeparator(separator)
    ensures ToAngolaIbanValue(a + [separator] + b) == ToAngolaIbanValue(a + b)
  {
    WithoutConcat(a, b, IsSeparator);
    WithoutConcat(a, [separator], IsSeparator);
    WithoutConcat(a + [separator], b, IsSeparator);
    assert Without([separator], IsSeparator) == [];
    assert Without(a, IsSeparator) + [] == Without(a, IsSeparator);
  }

  lemma NormalizedStays(value: string)
    ensures NormalizeIban(NormalizeIban(value)) == NormalizeIban(value)
  {
    var kept := Without(value, IsSeparator);
    var n := UpperText(kept);
    forall i | 0 <= i < |n|
      ensures !IsSeparator(n[i]) && Upper(n[i]) == n[i]
    {
      assert kept[i] in kept;
    }
    NothingDropped(n, IsSeparator);
  }

  /** Deriving the canonical form twice is deriving it once, whatever the value. */
  lemma CanonicalFormStable(value: string)
    ensures ToAngolaIbanValue(ToAngolaIbanValue(value)) == ToAngolaIbanValue(value)
  {
    hide NormalizeIban, Fold, PadStart, Decimal;
    var n := NormalizeIban(value);
    NormalizedStays(value);
    if !IsIban(n) && IsBban(n) {
      PaddedTwoDigits(CheckValue(n));
      WithCheckParts(CheckValue(n), n);
    }
  }

  lemma DropOne(c: char, rest: string)
    ensures UpperText(Without([c] + rest, IsSeparator))
            == (if IsSeparator(c) then "" else [Upper(c)]) + UpperText(Without(rest, IsSeparator))
  {
    assert ([c] + rest)[1..] == rest;
    hide IsSeparator;
  }

  lemma LowerParts(s: string)
    ensures s == "" ==> LowerText(s) == s
    ensures s != "" ==> var low := LowerText(s)[0];
                        && LowerText(s) == [low] + LowerText(s[1..]) && s == [s[0]] + s[1..]
                        && Upper(low) == Upper(s[0]) && (IsSeparator(low) <==> IsSeparator(s[0]))
  {
    if s != "" { LowerSeparator(s[0]); }
    hide IsSeparator, Upper;
  }

  lemma {:induction false} LowerDrops(s: string)
    ensures UpperText(Without(LowerText(s), IsSeparator)) == UpperText(Without(s, IsSeparator))
    decreases |s|
  {
    hide LowerText, UpperText, Without, IsSeparator, Upper;
    LowerParts(s);
    if s == "" {
    } else {
      LowerDrops(s[1..]);
      DropOne(s[0], s[1..]);
      DropOne(LowerText(s)[0], LowerText(s[1..]));
    }
  }

  lemma LowerSeparator(c: char)
    ensures var low := if 'A' <= c <= 'Z' then c + ' ' else c;
            Upper(low) == Upper(c) && (IsSeparator(low) <==> IsSeparator(c))
  {
  }

  /** Capital and small letters are the same to the derivation and to the check. */
  lemma CaseIgnored(value: string)
    ensures ToAngolaIbanValue(LowerText(value)) == ToAngolaIbanValue(value)
    ensures IsValidValue(LowerText(value)) <==> IsValidValue(value)
  {
    LowerDrops(value);
  }

  /** The digit loop computes the remainder of the number that the digits write. */
  lemma {:induction false} FoldIsRemainder(digits: string)
    requires AllDigits(digits)
    ensures Fold(0, digits) == DecimalValue(digits) % 97
    decreases |digits|
  {
    if digits == "" {
    } else {
      var head, last := digits[..|digits| - 1], digits[|digits| - 1..];
      FoldIsRemainder(head);
      FoldConcat(0, head, last);
      assert head + last == digits;
      AppendDigit(DecimalValue(head), DigitValue(digits[|digits| - 1]));
      OneDigit(Fold(0, head), last);
    }
  }

  lemma OneDigit(r: nat, s: string)
    requires |s| == 1 && AllDigits(s)
    ensures Fold(r, s) == (r * 10 + DigitValue(s[0])) % 97
  {
    assert s[1..] == "";
  }

  lemma AppendDigit(n: nat, d: nat)
    ensures (10 * n + d) % 97 == (n % 97 * 10 + d) % 97
  {
    AddMultiple(n % 97 * 10 + d, 10 * (n / 97));
  }

  /** A value without separators and small letters is read as it is. */
  lemma PlainStays(value: string)
    requires forall i :: 0 <= i < |value| ==> !IsSeparator(value[i]) && !('a' <= value[i] <= 'z')
    ensures NormalizeIban(value) == value
  {
    NothingDropped(value, IsSeparator);
  }

  /**
   What is accepted, by MOD 97-10: a bare account number, or AO with check digits such that the number formed by the
   account, 1024 for AO and the check digits is 1 modulo 97. Anything but a bare account number is only normalized.
   */
  lemma ValidIff(value: string)
    ensures !IsBban(NormalizeIban(value)) ==> ToAngolaIbanValue(value) == NormalizeIban(value)
    ensures var n := NormalizeIban(value);
            IsValidValue(value)
            <==> IsBban(n) || (IsIban(n) && DecimalValue(n[4..] + "1024" + n[2..4]) % 97 == 1)
  {
    hide Fold, DecimalValue;
    var n := NormalizeIban(value);
    if IsBban(n) {
      BbanPromotes(n);
      UpperOfIban(n);
    } else if IsIban(n) {
      FoldIsRemainder(n[4..] + "1024" + n[2..4]);
    }
  }
}

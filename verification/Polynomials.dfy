/**
 Polynomials over GF(2), each as the set of its exponents with coefficient 1, and division by the generator
 x^16 + x^12 + x^5 + 1. Bit strings are written with the coefficient of the highest power first.
 */
module Polynomials {

  type Poly = set<nat>

  const GENERATOR: Poly := {16, 12, 5, 0}

  function Add(a: Poly, b: Poly): Poly {
    (a - b) + (b - a)
  }

  /** Multiplication by x^k. */
  function Shift(a: Poly, k: nat): Poly {
    set e | e in a :: e + k
  }

  lemma InShift(a: Poly, k: nat, e: nat)
    ensures e in Shift(a, k) <==> e >= k && e - k in a
  {
    if e >= k && e - k in a {
      assert e == (e - k) + k;
    }
  }

  lemma ShiftAdd(a: Poly, b: Poly, k: nat)
    ensures Shift(Add(a, b), k) == Add(Shift(a, k), Shift(b, k))
  {
    forall e: nat
      ensures e in Shift(Add(a, b), k) <==> e in Add(Shift(a, k), Shift(b, k))
    {
      InShift(a, k, e);
      InShift(b, k, e);
      InShift(Add(a, b), k, e);
    }
  }

  lemma ShiftShift(a: Poly, j: nat, k: nat)
    ensures Shift(Shift(a, j), k) == Shift(a, j + k)
  {
    forall e: nat
      ensures e in Shift(Shift(a, j), k) <==> e in Shift(a, j + k)
    {
      InShift(Shift(a, j), k, e);
      if e >= k { InShift(a, j, e - k); }
      InShift(a, j + k, e);
    }
  }

  /** The polynomial whose coefficients are the bits. */
  function PolyOf(bits: seq<bool>): Poly {
    if bits == [] then {}
    else
      var n := |bits| - 1;
      Add(Shift(PolyOf(bits[..n]), 1), if bits[n] then {0} else {})
  }

  /** The product of a quotient, given by its bits, and the generator. */
  function TimesGenerator(q: seq<bool>): Poly {
    if q == [] then {}
    else
      var n := |q| - 1;
      Add(Shift(TimesGenerator(q[..n]), 1), if q[n] then GENERATOR else {})
  }

  predicate LowDegree(r: Poly) {
    forall e :: e in r ==> e < 16
  }

  /** p divided by the generator leaves r. */
  ghost predicate IsRemainder(p: Poly, r: Poly) {
    LowDegree(r) && exists q :: p == Add(TimesGenerator(q), r)
  }

  /** A leading zero of a quotient does not matter. */
  lemma {:induction false} LeadingZero(q: seq<bool>)
    ensures TimesGenerator([false] + q) == TimesGenerator(q)
  {
    var z := [false] + q;
    if q == [] {
      assert z[..0] == [];
      assert Shift({}, 1) == {};
    } else {
      LeadingZero(q[..|q| - 1]);
      assert z[..|z| - 1] == [false] + q[..|q| - 1];
    }
  }

  lemma {:induction false} LeadingZeros(k: nat, q: seq<bool>)
    ensures TimesGenerator(seq(k, _ => false) + q) == TimesGenerator(q)
  {
    if k > 0 {
      LeadingZeros(k - 1, q);
      LeadingZero(seq(k - 1, _ => false) + q);
      assert seq(k, _ => false) + q == [false] + (seq(k - 1, _ => false) + q);
    } else {
      assert seq(k, _ => false) + q == q;
    }
  }

  function XorBits(a: seq<bool>, b: seq<bool>): (c: seq<bool>)
    requires |a| == |b|
    ensures |c| == |a| && forall i :: 0 <= i < |a| ==> c[i] == (a[i] != b[i])
  {
    seq(|a|, i requires 0 <= i < |a| => a[i] != b[i])
  }

  lemma {:induction false} TimesXor(a: seq<bool>, b: seq<bool>)
    requires |a| == |b|
    ensures TimesGenerator(XorBits(a, b)) == Add(TimesGenerator(a), TimesGenerator(b))
  {
    if a == [] {
    } else {
      var n := |a| - 1;
      TimesXor(a[..n], b[..n]);
      assert XorBits(a, b)[..n] == XorBits(a[..n], b[..n]);
      ShiftAdd(TimesGenerator(a[..n]), TimesGenerator(b[..n]), 1);
    }
  }

  predicate HasDegree(p: Poly, e: nat) {
    e in p && forall d :: d in p ==> d <= e
  }

  lemma ShiftedDegree(p: Poly, below: nat, add: bool) returns (e: nat)
    requires p == {} || (HasDegree(p, below) && below >= 16)
    ensures var q := Add(Shift(p, 1), if add then GENERATOR else {});
            q == {} || (HasDegree(q, e) && e >= 16)
  {
    forall d: nat
      ensures d in Shift(p, 1) <==> d >= 1 && d - 1 in p
    {
      InShift(p, 1, d);
    }
    e := if p == {} then 16 else below + 1;
  }

  /** A multiple of the generator is zero or has degree 16 at least. */
  lemma {:induction false} MultipleHasHighDegree(q: seq<bool>) returns (e: nat)
    ensures TimesGenerator(q) == {} || (HasDegree(TimesGenerator(q), e) && e >= 16)
  {
    hide HasDegree, Shift, Add;
    if q == [] {
      e := 16;
    } else {
      var n := |q| - 1;
      var below := MultipleHasHighDegree(q[..n]);
      e := ShiftedDegree(TimesGenerator(q[..n]), below, q[n]);
    }
  }

  /** The remainder is unique, whatever quotients are used. */
  lemma RemainderUnique(p: Poly, r: Poly, s: Poly)
    requires IsRemainder(p, r) && IsRemainder(p, s)
    ensures r == s
  {
    var a :| p == Add(TimesGenerator(a), r);
    var b :| p == Add(TimesGenerator(b), s);
    var x, y := seq(|b|, _ => false) + a, seq(|a|, _ => false) + b;
    LeadingZeros(|b|, a);
    LeadingZeros(|a|, b);
    TimesXor(x, y);
    var e := MultipleHasHighDegree(XorBits(x, y));
    hide TimesGenerator, XorBits;
    SumsCancel(TimesGenerator(a), r, TimesGenerator(b), s);
  }

  lemma SumsCancel(a: Poly, r: Poly, b: Poly, s: Poly)
    requires Add(a, r) == Add(b, s)
    ensures Add(a, b) == Add(r, s)
  {
    assert Add(Add(a, r), Add(b, r)) == Add(Add(b, s), Add(b, r));
  }
}

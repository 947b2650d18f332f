/** Splitting a VAT-inclusive amount (agt.ts), in exact integer arithmetic. */
module Vat {
  import opened Wrappers
  import opened Division

  const BPS: int := 10_000

  datatype VatBreakdown = VatBreakdown(subtotalCents: int, vatCents: int, totalCents: int)

  /** Math.round(p / q): the nearest integer, halves going up. */
  function RoundDiv(p: int, q: int): int
    requires q > 0
  {
    (2 * p + q) / (2 * q)
  }

  lemma RoundDivIsNearest(p: int, q: int)
    requires q > 0
    ensures var r := RoundDiv(p, q); 2 * p - q < 2 * (r * q) <= 2 * p + q
  {
    DivBounds(2 * p + q, 2 * q);
    var r := RoundDiv(p, q);
    assert r * (2 * q) == 2 * (r * q);
  }

  /** x <= y follows from x * q < y * q + q. */
  lemma CancelFactor(x: int, y: int, q: int)
    requires q > 0
    ensures x * q < y * q + q ==> x <= y
  {
    if x > y {
      var k := x - y - 1;
      assert k * q >= 0;
      assert x == y + 1 + k;
      assert x * q == y * q + q + k * q;
    }
  }

  function Subtotal(gross: int, rateBps: int): int {
    if rateBps <= 0 then gross else RoundDiv(gross * BPS, BPS + rateBps)
  }

  function Breakdown(grossCents: int, rateBps: int): Result<VatBreakdown, string> {
    if grossCents < 0 then Failure("Amount must be a non-negative integer number of cents")
    else
      var subtotal := Subtotal(grossCents, rateBps);
      Success(VatBreakdown(subtotal, grossCents - subtotal, grossCents))
  }

  /** The configured rate is between 0 and 100 percent. */
  predicate ValidRate(rateBps: int) {
    0 <= rateBps <= BPS
  }

  /** The subtotal is within half a cent of gross / (1 + rate). */
  lemma SubtotalIsNearest(gross: int, rateBps: int)
    requires rateBps >= 0
    ensures var s, d := Subtotal(gross, rateBps), BPS + rateBps;
            2 * (gross * BPS) - d < 2 * (s * d) <= 2 * (gross * BPS) + d
  {
    if rateBps > 0 {
      RoundDivIsNearest(gross * BPS, BPS + rateBps);
    } else {
      assert BPS + rateBps == BPS;
    }
  }

  /** One more cent of gross adds no cent or one to the subtotal. */
  lemma SubtotalStep(gross: int, rateBps: int)
    requires ValidRate(rateBps)
    ensures Subtotal(gross, rateBps) <= Subtotal(gross + 1, rateBps) <= Subtotal(gross, rateBps) + 1
  {
    if rateBps > 0 {
      var d := BPS + rateBps;
      var a, b := 2 * (gross * BPS) + d, 2 * ((gross + 1) * BPS) + d;
      assert a <= b <= a + 2 * d;
      DivBounds(a, 2 * d);
      DivBounds(b, 2 * d);
      CancelFactor(a / (2 * d), b / (2 * d), 2 * d);
      assert (a / (2 * d) + 1) * (2 * d) == (a / (2 * d)) * (2 * d) + 2 * d;
      CancelFactor(b / (2 * d), a / (2 * d) + 1, 2 * d);
    }
  }

  /** Net and VAT both grow with the gross, and neither grows faster than it. */
  lemma {:induction false} SplitMonotone(lower: int, higher: int, rateBps: int)
    requires ValidRate(rateBps) && lower <= higher
    ensures 0 <= Subtotal(higher, rateBps) - Subtotal(lower, rateBps) <= higher - lower
    decreases higher - lower
  {
    if lower == higher {
    } else {
      SplitMonotone(lower, higher - 1, rateBps);
      SubtotalStep(higher - 1, rateBps);
    }
  }

  /** The parts are non-negative and add up to the amount charged; a negative amount is refused. */
  lemma BreakdownConserves(gross: int, rateBps: int)
    requires ValidRate(rateBps)
    ensures Breakdown(gross, rateBps).Success? <==> gross >= 0
    ensures gross >= 0 ==>
              var b := Breakdown(gross, rateBps).value;
              && b.totalCents == gross
              && b.subtotalCents + b.vatCents == gross
              && b.subtotalCents >= 0 && b.vatCents >= 0
  {
    if gross >= 0 {
      SplitMonotone(0, gross, rateBps);
      assert Subtotal(0, rateBps) == 0 by {
        RoundDivIsNearest(0, BPS + rateBps);
        var r, d := RoundDiv(0, BPS + rateBps), BPS + rateBps;
        CancelFactor(r, 0, d);
        assert -1 * d == -d;
        CancelFactor(0, r, d);
      }
    }
  }

  /** Putting the VAT back on the subtotal gives the gross, give or take one cent. */
  lemma ReapplyingVat(gross: int, rateBps: int)
    requires ValidRate(rateBps)
    ensures var again := RoundDiv(Subtotal(gross, rateBps) * (BPS + rateBps), BPS);
            gross - 1 <= again <= gross + 1
  {
    var d := BPS + rateBps;
    var s := Subtotal(gross, rateBps);
    SubtotalIsNearest(gross, rateBps);
    RoundDivIsNearest(s * d, BPS);
  }

  function GrossOf(parts: seq<nat>): nat {
    if parts == [] then 0 else parts[0] + GrossOf(parts[1..])
  }

  function SubtotalOf(parts: seq<nat>, rateBps: int): int {
    if parts == [] then 0 else Subtotal(parts[0], rateBps) + SubtotalOf(parts[1..], rateBps)
  }

  lemma AddFactors(x: int, y: int, q: int)
    ensures (x + y) * q == x * q + y * q
  {
  }

  lemma {:induction false} PartsError(parts: seq<nat>, rateBps: int)
    requires ValidRate(rateBps)
    ensures var d, n := BPS + rateBps, |parts|;
            2 * (GrossOf(parts) * BPS) - n * d <= 2 * (SubtotalOf(parts, rateBps) * d)
              <= 2 * (GrossOf(parts) * BPS) + n * d
  {
    hide Subtotal;
    var d := BPS + rateBps;
    if parts == [] {
    } else {
      PartsError(parts[1..], rateBps);
      SubtotalIsNearest(parts[0], rateBps);
      AddFactors(Subtotal(parts[0], rateBps), SubtotalOf(parts[1..], rateBps), d);
      AddFactors(1, |parts[1..]|, d);
    }
  }

  /** Invoicing an amount in n parts moves the total subtotal by at most (n + 1) / 2 cents. */
  lemma SplittingIntoParts(parts: seq<nat>, rateBps: int)
    requires ValidRate(rateBps)
    ensures var shift := SubtotalOf(parts, rateBps) - Subtotal(GrossOf(parts), rateBps);
            -(|parts| + 1) <= 2 * shift <= |parts| + 1
  {
    hide Subtotal, GrossOf, SubtotalOf;
    var d, n := BPS + rateBps, |parts|;
    var whole, sum := Subtotal(GrossOf(parts), rateBps), SubtotalOf(parts, rateBps);
    PartsError(parts, rateBps);
    SubtotalIsNearest(GrossOf(parts), rateBps);
    Difference(sum, whole, n + 1, d) by {
      AddFactors(n, 1, d);
    }
    Difference(whole, sum, n + 1, d) by {
      AddFactors(n, 1, d);
    }
  }

  lemma Difference(x: int, y: int, n: int, q: int)
    requires q > 0 && 2 * (x * q) <= 2 * (y * q) + n * q
    ensures 2 * (x - y) <= n
  {
    AddFactors(x - y, y, q);
    AddFactors(x - y, x - y, q);
    CancelFactor(2 * (x - y), n, q);
  }
}

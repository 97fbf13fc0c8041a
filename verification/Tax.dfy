// VAT over exact rationals, rounded half away from zero to whole cents.

module Tax {

  function RoundHalfAway(x: real): int {
    if x >= 0.0 then (x + 0.5).Floor else -(-x + 0.5).Floor
  }

  // The part of a gross amount that is tax.
  function Inside(gross: real, percent: real): real
    requires percent >= 0.0
  {
    gross * percent / (100.0 + percent)
  }

  function TaxFromInclusive(amount: int, percent: real): int
    requires percent >= 0.0
  {
    RoundHalfAway(Inside(amount as real, percent))
  }

  function TaxFromExclusive(amount: int, percent: real): int
    requires percent >= 0.0
  {
    RoundHalfAway(amount as real * percent / 100.0)
  }

  // Tax and total of a discounted amount.
  function Totals(amount: int, percent: real, inclusive: bool): (t: (int, int))
    requires percent >= 0.0
  {
    if inclusive then (TaxFromInclusive(amount, percent), amount)
    else (TaxFromExclusive(amount, percent), amount + TaxFromExclusive(amount, percent))
  }

  predicate ValidPercent(percent: real) {
    0.0 <= percent <= 100.0
  }

  lemma RoundsTo(x: real, n: nat)
    requires 0.0 <= x && n as real - 0.5 <= x < n as real + 0.5
    ensures RoundHalfAway(x) == n
  {
  }

  lemma RoundsNear(x: real)
    requires 0.0 <= x
    ensures 0 <= RoundHalfAway(x) && RoundHalfAway(x) as real - 0.5 <= x < RoundHalfAway(x) as real + 0.5
  {
  }

  // The nearest whole number, and of two equally near the one further from zero.
  lemma NearestCent(x: real)
    ensures var r := RoundHalfAway(x) as real;
            && -0.5 <= r - x <= 0.5
            && (r - x == 0.5 ==> x >= 0.0) && (r - x == -0.5 ==> x < 0.0)
  {
  }

  // Both taxes are their exact rational to the nearest cent; an exclusive one is added
  // to the amount and an inclusive one is not.
  lemma InclusiveNearest(amount: int, percent: real)
    requires percent >= 0.0
    ensures var exact := amount as real * percent / (100.0 + percent);
            -0.5 <= TaxFromInclusive(amount, percent) as real - exact <= 0.5
    ensures Totals(amount, percent, true) == (TaxFromInclusive(amount, percent), amount)
  {
    var x := Inside(amount as real, percent);
    NearestCent(x);
    assert x == amount as real * percent / (100.0 + percent);
  }

  lemma ExclusiveNearest(amount: int, percent: real)
    requires percent >= 0.0
    ensures var exact := amount as real * percent / 100.0;
            -0.5 <= TaxFromExclusive(amount, percent) as real - exact <= 0.5
    ensures Totals(amount, percent, false) == (TaxFromExclusive(amount, percent), amount + TaxFromExclusive(amount, percent))
  {
    NearestCent(amount as real * percent / 100.0);
  }

  // The exact quotient stays within half a cent of the tax that was added.
  lemma ExtractionError(a: real, t: real, p: real)
    requires 0.0 <= p && t - 0.5 <= a * p / 100.0 < t + 0.5
    ensures t - 0.5 <= Inside(a + t, p) < t + 0.5
  {
  }

  lemma Share(a: real, p: real)
    requires 0.0 <= a && 0.0 <= p
    ensures 0.0 <= a * p / 100.0 && 0.0 <= Inside(a, p) <= a
  {
  }

  lemma AddedTax(a: real, p: real, t: int)
    requires 0.0 <= a && 0.0 <= p && t == RoundHalfAway(a * p / 100.0)
    ensures t >= 0 && RoundHalfAway(Inside(a + t as real, p)) == t
  {
    Share(a, p);
    RoundsNear(a * p / 100.0);
    ExtractionError(a, t as real, p);
    Share(a + t as real, p);
    RoundsTo(Inside(a + t as real, p), t);
  }

  // Extracting VAT from an exclusive total gives back exactly the VAT that was added.
  lemma ExtractionInvertsAddition(amount: nat, percent: real)
    requires percent >= 0.0
    ensures var (tax, total) := Totals(amount, percent, false); TaxFromInclusive(total, percent) == tax >= 0
  {
    var t := TaxFromExclusive(amount, percent);
    var a := amount as real;
    AddedTax(a, percent, t);
    assert (amount + t) as real == a + t as real;
  }

  // Inclusive VAT lies between nothing and the amount.
  lemma InclusiveWithin(amount: nat, percent: real)
    requires percent >= 0.0
    ensures 0 <= TaxFromInclusive(amount, percent) <= amount
  {
    var a := amount as real;
    var x := Inside(a, percent);
    Share(a, percent);
    RoundsNear(x);
  }

  // Up to 100 percent, exclusive VAT is at most the amount it is added to.
  lemma ExclusiveWithin(amount: nat, percent: real)
    requires ValidPercent(percent)
    ensures 0 <= TaxFromExclusive(amount, percent) <= amount
  {
  }
}

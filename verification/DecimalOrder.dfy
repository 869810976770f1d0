/** The order check of a "between" decimal filter (httpapi/httpapi_query.go). */
module DecimalOrder {
  import opened Domain

  // A shopspring decimal: coefficient * 10^exponent. The library holds the
  // exponent in 32 bits; nothing below needs the bound.
  datatype Decimal = Decimal(coefficient: int, exponent: int)

  function Sign(d: Decimal): int {
    if d.coefficient > 0 then 1 else if d.coefficient < 0 then -1 else 0
  }

  function Magnitude(d: Decimal): nat {
    if d.coefficient < 0 then -d.coefficient else d.coefficient
  }

  function LeadingDigitPlace(d: Decimal): int {
    |DecimalText(Magnitude(d))| + d.exponent
  }

  function IntPow10(k: nat): nat {
    if k == 0 then 1 else 10 * IntPow10(k - 1)
  }

  // decimal.Decimal.GreaterThan: bring both operands to the smaller exponent and
  // compare coefficients. This is the step whose cost grows with the exponent gap.
  predicate RescaledGreater(a: Decimal, b: Decimal) {
    if a.exponent >= b.exponent then
      a.coefficient * IntPow10(a.exponent - b.exponent) > b.coefficient
    else
      a.coefficient > b.coefficient * IntPow10(b.exponent - a.exponent)
  }

  // The inputs on which decimalGreater reaches the exact comparison.
  predicate FallsThrough(a: Decimal, b: Decimal) {
    Sign(a) == Sign(b) != 0 && LeadingDigitPlace(a) == LeadingDigitPlace(b)
  }

  predicate DecimalGreater(a: Decimal, b: Decimal) {
    if Sign(a) != Sign(b) then
      Sign(a) > Sign(b)
    else if Sign(a) == 0 then
      false
    else
      var aPlace, bPlace := LeadingDigitPlace(a), LeadingDigitPlace(b);
      if aPlace != bPlace then
        (aPlace > bPlace) == (Sign(a) > 0)
      else
        RescaledGreater(a, b)
  }

  // The number a decimal denotes, c * 10^e: multiply or divide by ten, one step per unit
  // of the exponent. This is the independent reference for the order.

  function Scaled(c: int, e: int): real
    decreases if e < 0 then -e else e
  {
    if e == 0 then c as real else if e > 0 then 10.0 * Scaled(c, e - 1) else Scaled(c, e + 1) / 10.0
  }

  function Value(d: Decimal): real {
    Scaled(d.coefficient, d.exponent)
  }

  predicate Between(min: Decimal, x: real, max: Decimal) {
    Value(min) <= x <= Value(max)
  }

  lemma {:induction false} ScaledMonotone(c: int, d: int, e: int)
    ensures c < d ==> Scaled(c, e) < Scaled(d, e)
    ensures c <= d ==> Scaled(c, e) <= Scaled(d, e)
    decreases if e < 0 then -e else e
  {
    if e > 0 {
      ScaledMonotone(c, d, e - 1);
    } else if e < 0 {
      ScaledMonotone(c, d, e + 1);
    }
  }

  lemma {:induction false} ScaledNegates(c: int, e: int)
    ensures Scaled(-c, e) == -Scaled(c, e)
    decreases if e < 0 then -e else e
  {
    if e > 0 {
      ScaledNegates(c, e - 1);
    } else if e < 0 {
      ScaledNegates(c, e + 1);
    }
  }

  lemma {:induction false} ScaledTimesTen(c: int, e: int)
    ensures Scaled(10 * c, e) == Scaled(c, e + 1)
    decreases if e < 0 then -e else e
  {
    if e > 0 {
      ScaledTimesTen(c, e - 1);
    } else if e < 0 {
      ScaledTimesTen(c, e + 1);
    }
  }

  /** Appending k zeros to a coefficient and lowering its exponent by k denotes the same number. */
  lemma {:induction false} RescalePreservesValue(c: int, k: nat, e: int)
    ensures Scaled(c * IntPow10(k), e) == Scaled(c, e + k)
  {
    if k != 0 {
      assert c * IntPow10(k) == 10 * (c * IntPow10(k - 1));
      ScaledTimesTen(c * IntPow10(k - 1), e);
      RescalePreservesValue(c, k - 1, e + 1);
    }
  }

  lemma {:induction false} PowersMonotone(e: int, k: nat)
    ensures 0.0 < Scaled(1, e) <= Scaled(1, e + k)
  {
    ScaledMonotone(0, 1, e);
    ScaledNegates(0, e);
    if k != 0 {
      PowersMonotone(e, k - 1);
      ScaledTimesTen(1, e + k - 1);
      ScaledMonotone(1, 10, e + k - 1);
    }
  }

  lemma {:induction false} DigitCountBounds(n: nat)
    requires n > 0
    ensures IntPow10(|DecimalText(n)| - 1) <= n < IntPow10(|DecimalText(n)|)
  {
    if n >= 10 {
      DigitCountBounds(n / 10);
      assert |DecimalText(n)| == |DecimalText(n / 10)| + 1;
    } else {
      assert IntPow10(1) == 10;
    }
  }

  /** leadingDigitPlace is the exponent of the least power of ten above the magnitude. */
  lemma LeadingDigitPlaceIsLeast(d: Decimal)
    requires Sign(d) != 0
    ensures Scaled(1, LeadingDigitPlace(d) - 1) <= Scaled(Magnitude(d), d.exponent)
    ensures Scaled(Magnitude(d), d.exponent) < Scaled(1, LeadingDigitPlace(d))
  {
    var n := |DecimalText(Magnitude(d))|;
    DigitCountBounds(Magnitude(d));
    RescalePreservesValue(1, n, d.exponent);
    RescalePreservesValue(1, n - 1, d.exponent);
    ScaledMonotone(IntPow10(n - 1), Magnitude(d), d.exponent);
    ScaledMonotone(Magnitude(d), IntPow10(n), d.exponent);
  }

  lemma RescaledGreaterIsExact(a: Decimal, b: Decimal)
    ensures RescaledGreater(a, b) <==> Value(a) > Value(b)
  {
    if a.exponent >= b.exponent {
      var rescaled := a.coefficient * IntPow10(a.exponent - b.exponent);
      RescalePreservesValue(a.coefficient, a.exponent - b.exponent, b.exponent);
      ScaledMonotone(b.coefficient, rescaled, b.exponent);
      ScaledMonotone(rescaled, b.coefficient, b.exponent);
    } else {
      var rescaled := b.coefficient * IntPow10(b.exponent - a.exponent);
      RescalePreservesValue(b.coefficient, b.exponent - a.exponent, a.exponent);
      ScaledMonotone(rescaled, a.coefficient, a.exponent);
      ScaledMonotone(a.coefficient, rescaled, a.exponent);
    }
  }

  lemma SignOfValue(d: Decimal)
    ensures Sign(d) > 0 <==> Value(d) > 0.0
    ensures Sign(d) < 0 <==> Value(d) < 0.0
  {
    ScaledNegates(0, d.exponent);
    ScaledMonotone(0, d.coefficient, d.exponent);
    ScaledMonotone(d.coefficient, 0, d.exponent);
  }

  lemma HigherPlaceIsLarger(a: Decimal, b: Decimal)
    requires Sign(a) != 0 && Sign(b) != 0
    requires LeadingDigitPlace(a) < LeadingDigitPlace(b)
    ensures Scaled(Magnitude(a), a.exponent) < Scaled(Magnitude(b), b.exponent)
  {
    LeadingDigitPlaceIsLeast(a);
    LeadingDigitPlaceIsLeast(b);
    PowersMonotone(LeadingDigitPlace(a), LeadingDigitPlace(b) - 1 - LeadingDigitPlace(a));
  }

  /** decimalGreater is the exact order of the denoted numbers, for every coefficient and exponent. */
  lemma DecimalGreaterIsExact(a: Decimal, b: Decimal)
    ensures DecimalGreater(a, b) <==> Value(a) > Value(b)
  {
    SignOfValue(a);
    SignOfValue(b);
    if Sign(a) == Sign(b) != 0 {
      ScaledNegates(a.coefficient, a.exponent);
      ScaledNegates(b.coefficient, b.exponent);
      if LeadingDigitPlace(a) < LeadingDigitPlace(b) {
        HigherPlaceIsLarger(a, b);
      } else if LeadingDigitPlace(b) < LeadingDigitPlace(a) {
        HigherPlaceIsLarger(b, a);
      } else {
        RescaledGreaterIsExact(a, b);
      }
    }
  }

  /** When the exact comparison is reached, it scales by fewer digits than the longer operand has. */
  lemma RescaleGapIsBounded(a: Decimal, b: Decimal)
    requires FallsThrough(a, b)
    ensures
      var aDigits, bDigits := |DecimalText(Magnitude(a))|, |DecimalText(Magnitude(b))|;
      var gap := if a.exponent >= b.exponent then a.exponent - b.exponent else b.exponent - a.exponent;
      gap < if aDigits >= bDigits then aDigits else bDigits
  {
    assert |DecimalText(Magnitude(a))| >= 1 && |DecimalText(Magnitude(b))| >= 1;
  }

  /**
   * A "between" filter is refused by decimalRangeFromQuery exactly when no number lies
   * between its bounds, so no satisfiable range is refused and no empty one is accepted.
   */
  lemma BetweenRefusesExactlyEmptyRanges(min: Decimal, max: Decimal)
    ensures DecimalGreater(min, max) <==> !exists x: real :: Between(min, x, max)
  {
    DecimalGreaterIsExact(min, max);
    if !DecimalGreater(min, max) {
      assert Between(min, Value(min), max);
    }
  }
}

/**
 * Decimal numbers as coefficient and exponent, added by rescaling to the smaller exponent. Amounts
 * with at most eight decimal places are exactly the integers in units of 10^-8, operations included.
 */
module Decimals {

  datatype Decimal = Decimal(coefficient: int, exponent: int)

  const PLACES := 8
  const ZERO := Decimal(0, 1)

  function Pow10(n: nat): (r: nat)
    ensures r >= 1
  {
    if n == 0 then 1 else 10 * Pow10(n - 1)
  }

  function Rescaled(d: Decimal, exponent: int): int
    requires exponent <= d.exponent
  {
    d.coefficient * Pow10(d.exponent - exponent)
  }

  function Min(a: int, b: int): int { if a <= b then a else b }

  function Add(a: Decimal, b: Decimal): Decimal {
    var e := Min(a.exponent, b.exponent);
    Decimal(Rescaled(a, e) + Rescaled(b, e), e)
  }

  predicate Equal(a: Decimal, b: Decimal) {
    var e := Min(a.exponent, b.exponent);
    Rescaled(a, e) == Rescaled(b, e)
  }

  predicate IsNegative(d: Decimal) { d.coefficient < 0 }

  /** At most eight decimal places. */
  predicate Fits(d: Decimal) { d.exponent >= -PLACES }

  /** The value in units of 10^-8. */
  function Units(d: Decimal): int
    requires Fits(d)
  {
    d.coefficient * Pow10(d.exponent + PLACES)
  }

  /** A NUMERIC(28, 8) column value read back. */
  function FromUnits(u: int): Decimal { Decimal(u, -PLACES) }

  lemma {:induction false} PowersMultiply(a: nat, b: nat)
    ensures Pow10(a + b) == Pow10(a) * Pow10(b)
  {
    if a == 0 {
    } else {
      PowersMultiply(a - 1, b);
      assert Pow10(a + b) == 10 * (Pow10(a - 1) * Pow10(b));
      Regroup(10, Pow10(a - 1), Pow10(b));
    }
  }

  lemma Regroup(x: int, y: int, z: int)
    ensures x * (y * z) == (x * y) * z
  {
  }

  lemma RescalingKeepsUnits(d: Decimal, exponent: int)
    requires -PLACES <= exponent <= d.exponent
    ensures Rescaled(d, exponent) * Pow10(exponent + PLACES) == Units(d)
  {
    PowersMultiply(d.exponent - exponent, exponent + PLACES);
    Regroup(d.coefficient, Pow10(d.exponent - exponent), Pow10(exponent + PLACES));
  }

  lemma Distribute(a: int, b: int, p: int)
    ensures (a + b) * p == a * p + b * p
  {
  }

  lemma AddIsExact(a: Decimal, b: Decimal)
    requires Fits(a) && Fits(b)
    ensures Fits(Add(a, b)) && Units(Add(a, b)) == Units(a) + Units(b)
  {
    var e := Min(a.exponent, b.exponent);
    RescalingKeepsUnits(a, e);
    RescalingKeepsUnits(b, e);
    Distribute(Rescaled(a, e), Rescaled(b, e), Pow10(e + PLACES));
  }

  lemma Cancel(a: int, b: int, p: int)
    requires p >= 1
    ensures a * p == b * p <==> a == b
    ensures a * p < 0 <==> a < 0
  {
    if a < b { assert (b - a) * p >= 1; } else if b < a { assert (a - b) * p >= 1; }
    if a < 0 { assert (-a) * p >= 1; } else { assert a * p >= 0; }
  }

  lemma EqualIsExact(a: Decimal, b: Decimal)
    requires Fits(a) && Fits(b)
    ensures Equal(a, b) <==> Units(a) == Units(b)
  {
    var e := Min(a.exponent, b.exponent);
    RescalingKeepsUnits(a, e);
    RescalingKeepsUnits(b, e);
    Cancel(Rescaled(a, e), Rescaled(b, e), Pow10(e + PLACES));
  }

  lemma SignIsExact(d: Decimal)
    requires Fits(d)
    ensures IsNegative(d) <==> Units(d) < 0
  {
    Cancel(d.coefficient, 0, Pow10(d.exponent + PLACES));
  }

  lemma RoundTrip(u: int, d: Decimal)
    ensures Fits(FromUnits(u)) && Units(FromUnits(u)) == u
    ensures Fits(d) ==> Equal(FromUnits(Units(d)), d)
  {
    if Fits(d) {
      EqualIsExact(FromUnits(Units(d)), d);
    }
  }

  /** What a unit is: eight decimal places and no more fit, and one is a hundred million units. */
  lemma UnitsAreHundredMillionths(d: Decimal, c: int)
    ensures Fits(d) <==> d.exponent >= -8
    ensures Units(Decimal(c, -8)) == c && Units(Decimal(c, 0)) == 100_000_000 * c
    ensures Fits(d) ==> Units(Decimal(d.coefficient, d.exponent + 1)) == 10 * Units(d)
  {
    assert Pow10(8) == 100_000_000 by {
      assert Pow10(4) == 10_000;
      PowersMultiply(4, 4);
    }
    if Fits(d) {
      Regroup(d.coefficient, 10, Pow10(d.exponent + PLACES));
      Swap(d.coefficient, 10, Pow10(d.exponent + PLACES));
    }
  }

  lemma Swap(x: int, y: int, z: int)
    ensures (x * y) * z == y * (x * z)
  {
  }
}

/** The compliance score: a Decimal quotient rounded to 28 significant digits (half to even),
    multiplied by 100, and quantized to hundredths (half up). */
module DecimalScore {

  const PRECISION: nat := 28

  function Pow10(n: nat): (p: nat)
    ensures p >= 1
  {
    if n == 0 then 1 else 10 * Pow10(n - 1)
  }

  /** The integer nearest to num / den, a tie going to the even one. */
  function RoundHalfEven(num: nat, den: nat): nat
    requires den > 0
  {
    var q, r := num / den, num % den;
    if 2 * r < den || (2 * r == den && q % 2 == 0) then q else q + 1
  }

  /** A non-negative decimal, coefficient / 10^scale. */
  datatype Decimal = Decimal(coefficient: nat, scale: nat)

  lemma {:induction false} Pow10Dominates(p: nat, bound: nat, e: nat)
    requires p > 0 && e >= bound
    ensures p * Pow10(e) >= bound
  {
    if e > 0 {
      Pow10Dominates(p, if bound == 0 then 0 else bound - 1, e - 1);
      assert p * Pow10(e) == 10 * (p * Pow10(e - 1));
      assert p * Pow10(e - 1) >= 1;
    }
  }

  /** The least scale from e on at which p / a has 28 digits before the point. */
  function ScaleFrom(p: nat, a: nat, e: nat): (scale: nat)
    requires p > 0 && a > 0
    ensures scale >= e && p * Pow10(scale) >= Pow10(PRECISION - 1) * a
    ensures scale > e ==> p * Pow10(scale - 1) < Pow10(PRECISION - 1) * a
    decreases Pow10(PRECISION - 1) * a - e
  {
    if p * Pow10(e) >= Pow10(PRECISION - 1) * a then e
    else
      assert e < Pow10(PRECISION - 1) * a by {
        if e >= Pow10(PRECISION - 1) * a {
          Pow10Dominates(p, Pow10(PRECISION - 1) * a, e);
        }
      }
      ScaleFrom(p, a, e + 1)
  }

  function Scale(p: nat, a: nat): nat
    requires p > 0 && a > 0
  {
    ScaleFrom(p, a, 0)
  }

  /** Decimal(p) / Decimal(a) for p <= a. */
  function Divide(p: nat, a: nat): Decimal
    requires p <= a && a > 0
  {
    if p == 0 then Decimal(0, 0)
    else
      var e := Scale(p, a);
      var c := RoundHalfEven(p * Pow10(e), a);
      if c == Pow10(PRECISION) && e > 0 then Decimal(Pow10(PRECISION - 1), e - 1) else Decimal(c, e)
  }

  /** Multiplication by 100 in the same context: the two digits that may exceed the precision
      are rounded away again. */
  function TimesHundred(d: Decimal): Decimal {
    var c := 100 * d.coefficient;
    if c >= Pow10(PRECISION + 1) && d.scale >= 2 then Decimal(RoundHalfEven(c, 100), d.scale - 2)
    else if c >= Pow10(PRECISION) && d.scale >= 1 then Decimal(RoundHalfEven(c, 10), d.scale - 1)
    else Decimal(c, d.scale)
  }

  /** quantize(Decimal("0.01"), ROUND_HALF_UP), in hundredths. */
  function QuantizeHalfUp(d: Decimal): nat {
    RoundHalfUp(100 * d.coefficient, Pow10(d.scale))
  }

  /** The integer nearest to num / den, a tie going up. */
  function RoundHalfUp(num: nat, den: nat): nat
    requires den > 0
  {
    (2 * num + den) / (2 * den)
  }

  /** The score in hundredths, 0.00 when nothing was assessed. */
  function Score(passed: nat, assessed: nat): nat
    requires passed <= assessed
  {
    if assessed == 0 then 0 else QuantizeHalfUp(TimesHundred(Divide(passed, assessed)))
  }

  lemma {:induction false} Pow10Monotone(m: nat, n: nat)
    requires m <= n
    ensures Pow10(m) <= Pow10(n)
  {
    if m < n {
      Pow10Monotone(m, n - 1);
    }
  }

  lemma {:induction false} Pow10Add(m: nat, n: nat)
    ensures Pow10(m + n) == Pow10(m) * Pow10(n)
  {
    if m > 0 {
      Pow10Add(m - 1, n);
      assert Pow10(m + n) == 10 * Pow10(m - 1 + n);
      assert 10 * (Pow10(m - 1) * Pow10(n)) == (10 * Pow10(m - 1)) * Pow10(n);
    }
  }

  // ----- integer arithmetic

  lemma ProductNonNegative(x: int, y: int)
    requires x >= 0 && y >= 0
    ensures x * y >= 0
  {
  }

  lemma ProductSign(x: int, a: int)
    requires a > 0
    ensures x * a >= 0 <==> x >= 0
  {
    if x >= 0 {
      ProductNonNegative(x, a);
    } else {
      ProductNonNegative(-x - 1, a);
    }
  }

  lemma QuotientIs(m: nat, d: nat, n: nat)
    requires d > 0 && n * d <= m < n * d + d
    ensures m / d == n
  {
    var q, r := m / d, m % d;
    assert m == q * d + r;
    ProductSign(q - n, d);
    ProductSign(n - q, d);
    ProductSign(q - n - 1, d);
    ProductSign(n - q - 1, d);
  }

  lemma RoundHalfUpBounds(num: nat, den: nat)
    requires den > 0
    ensures var n := RoundHalfUp(num, den); 2 * (n * den) <= 2 * num + den < 2 * (n * den) + 2 * den
  {
    var n, r := (2 * num + den) / (2 * den), (2 * num + den) % (2 * den);
    assert 2 * num + den == n * (2 * den) + r;
    assert n * (2 * den) == 2 * (n * den);
  }

  lemma RoundHalfUpIs(num: nat, den: nat, n: nat)
    requires den > 0 && 2 * (n * den) <= 2 * num + den < 2 * (n * den) + 2 * den
    ensures RoundHalfUp(num, den) == n
  {
    assert n * (2 * den) == 2 * (n * den);
    QuotientIs(2 * num + den, 2 * den, n);
  }

  /** A common factor of numerator and denominator does not matter. */
  lemma RoundHalfUpScales(num: nat, den: nat, k: nat)
    requires den > 0 && k > 0
    ensures den * k > 0 && RoundHalfUp(num * k, den * k) == RoundHalfUp(num, den)
  {
    var n := RoundHalfUp(num, den);
    RoundHalfUpBounds(num, den);
    ScaledBounds(num, den, k, n * den);
    assert n * (den * k) == (n * den) * k;
    RoundHalfUpIs(num * k, den * k, n);
  }

  lemma ScaledBounds(num: int, den: int, k: int, floor: int)
    requires den > 0 && k > 0 && 2 * floor <= 2 * num + den < 2 * floor + 2 * den
    ensures den * k > 0 && 2 * (floor * k) <= 2 * (num * k) + den * k < 2 * (floor * k) + 2 * (den * k)
  {
    ProductNonNegative(den - 1, k);
    assert (den - 1) * k == den * k - k;
    ProductNonNegative(2 * num + den - 2 * floor, k);
    assert (2 * num + den - 2 * floor) * k == 2 * (num * k) + den * k - 2 * (floor * k);
    ProductNonNegative(2 * floor + den - 2 * num - 1, k);
    assert (2 * floor + den - 2 * num - 1) * k == 2 * (floor * k) + den * k - 2 * (num * k) - k;
  }

  /** The rounded coefficient is off by at most half a unit, and exact when it can be. */
  lemma RoundHalfEvenNear(num: nat, den: nat)
    requires den > 0
    ensures var error: int := RoundHalfEven(num, den) * den - num;
            2 * error <= den && 2 * error >= 0 - den && (num % den == 0 ==> error == 0)
  {
    var q, r := num / den, num % den;
    assert num == q * den + r;
    assert (q + 1) * den == q * den + den;
  }

  lemma MultipleHasNoRemainder(k: nat, a: nat)
    requires a > 0
    ensures (k * a) % a == 0
  {
    QuotientIs(k * a, a, k);
  }

  // ----- what the three steps amount to

  lemma RoundingAHundredth(coefficient: nat)
    ensures RoundHalfEven(100 * coefficient, 100) == coefficient
    ensures RoundHalfEven(100 * coefficient, 10) == 10 * coefficient
  {
  }

  lemma PowerUp(scale: nat)
    requires scale >= 1
    ensures Pow10(scale) == Pow10(scale - 1) * 10
    ensures scale >= 2 ==> Pow10(scale) == Pow10(scale - 2) * 100
  {
    if scale >= 2 {
      assert Pow10(scale - 1) == 10 * Pow10(scale - 2);
    }
  }

  lemma QuantizeScaled(d: Decimal, k: nat, num: nat, den: nat)
    requires k > 0 && num == 100 * d.coefficient * k && den == Pow10(d.scale) * k
    ensures den > 0 && QuantizeHalfUp(d) == RoundHalfUp(num, den)
  {
    RoundHalfUpScales(100 * d.coefficient, Pow10(d.scale), k);
  }

  /** The product has two digits more, one digit more, or is kept as it is. */
  lemma TimesHundredShifts(d: Decimal)
    ensures var c, product := d.coefficient, TimesHundred(d);
            || (d.scale >= 2 && product == Decimal(c, d.scale - 2))
            || (d.scale >= 1 && product == Decimal(10 * c, d.scale - 1))
            || product == Decimal(100 * c, d.scale)
  {
    RoundingAHundredth(d.coefficient);
  }

  /** Multiplying by 100 and quantizing lose nothing on the way to the last rounding. */
  lemma TimesHundredIsExact(d: Decimal)
    ensures QuantizeHalfUp(TimesHundred(d)) == RoundHalfUp(10000 * d.coefficient, Pow10(d.scale))
  {
    var c, scale, product := d.coefficient, d.scale, TimesHundred(d);
    TimesHundredShifts(d);
    if scale >= 1 {
      PowerUp(scale);
    }
    var k := if product.scale == scale then 1 else if product.scale == scale - 1 then 10 else 100;
    QuantizeScaled(product, k, 10000 * c, Pow10(scale));
  }

  /** A carry out of the 28th digit only renames the quotient. */
  lemma DivideIsRounding(passed: nat, assessed: nat)
    requires 0 < passed <= assessed
    ensures var d, unit := Divide(passed, assessed), Pow10(Scale(passed, assessed));
            RoundHalfUp(10000 * d.coefficient, Pow10(d.scale))
            == RoundHalfUp(10000 * RoundHalfEven(passed * unit, assessed), unit)
  {
    var e := Scale(passed, assessed);
    var c := RoundHalfEven(passed * Pow10(e), assessed);
    if c == Pow10(PRECISION) && e > 0 {
      Carry(e);
    }
  }

  lemma Carry(e: nat)
    requires e > 0
    ensures RoundHalfUp(10000 * Pow10(PRECISION - 1), Pow10(e - 1)) == RoundHalfUp(10000 * Pow10(PRECISION), Pow10(e))
  {
    RoundHalfUpScales(10000 * Pow10(PRECISION - 1), Pow10(e - 1), 10);
  }

  /** An error below half of 1 / (20000 a) cannot carry the quotient across a rounding boundary,
      and on a boundary there is no error. */
  lemma SmallErrorIsHarmless(p: nat, a: nat, unit: nat, c: nat, n: nat)
    requires a > 0 && unit > 10000 * a
    requires 2 * (n * a) <= 20000 * p + a < 2 * (n * a) + 2 * a
    requires var error: int := c * a - p * unit; 2 * error <= a && 2 * error >= 0 - a
    requires 20000 * p + a == 2 * (n * a) ==> c * a == p * unit
    ensures 2 * (n * unit) <= 20000 * c + unit < 2 * (n * unit) + 2 * unit
  {
    var error: int := c * a - p * unit;
    var u: int := 20000 * p + a - 2 * (n * a);
    var w: int := 20000 * c + unit - 2 * (n * unit);
    SlackIdentity(p, a, unit, c, n);
    SlackBounds(a, unit, u, error);
    ProductSign(w, a);
    assert (w - 2 * unit) * a == w * a - 2 * (unit * a);
    ProductSign(w - 2 * unit, a);
  }

  lemma SlackIdentity(p: int, a: int, unit: int, c: int, n: int)
    ensures (20000 * c + unit - 2 * (n * unit)) * a
            == unit * (20000 * p + a - 2 * (n * a)) + 20000 * (c * a - p * unit)
  {
    assert (n * unit) * a == unit * (n * a);
    assert (20000 * c + unit - 2 * (n * unit)) * a == 20000 * (c * a) + unit * a - 2 * ((n * unit) * a);
    assert unit * (20000 * p + a - 2 * (n * a)) == 20000 * (p * unit) + unit * a - 2 * (unit * (n * a));
  }

  lemma SlackBounds(a: int, unit: int, u: int, error: int)
    requires a > 0 && unit > 10000 * a && 0 <= u < 2 * a
    requires 2 * error <= a && 2 * error >= 0 - a && (u == 0 ==> error == 0)
    ensures 0 <= unit * u + 20000 * error < 2 * (unit * a)
  {
    assert 20000 * error <= 10000 * a && 20000 * error >= 0 - 10000 * a;
    if u > 0 {
      ProductNonNegative(unit, u - 1);
      assert unit * (u - 1) == unit * u - unit;
    }
    ProductNonNegative(unit, 2 * a - 1 - u);
    assert unit * (2 * a - 1 - u) == 2 * (unit * a) - unit - unit * u;
  }

  /** The exact case: a quotient that ends on a half hundredth divides evenly at this scale. */
  lemma BoundaryDividesEvenly(p: nat, a: nat, unit: nat, n: nat)
    requires a > 0 && unit % 20000 == 0 && 20000 * p + a == 2 * (n * a)
    ensures (p * unit) % a == 0
  {
    var k := unit / 20000;
    assert unit == 20000 * k;
    assert n > 0;
    assert 20000 * p == (2 * n - 1) * a;
    assert p * unit == (20000 * p) * k;
    assert ((2 * n - 1) * a) * k == ((2 * n - 1) * k) * a;
    MultipleHasNoRemainder((2 * n - 1) * k, a);
  }

  lemma UnitExceeds(p: int, a: int, unit: int, limit: int)
    requires 0 < p < limit && a > 0 && p * unit >= limit * (10000 * a)
    ensures unit > 10000 * a
  {
    FactorExceeds(p, unit, limit, 10000 * a);
  }

  lemma FactorExceeds(p: int, unit: int, limit: int, bound: int)
    requires 0 < p < limit && bound > 0 && p * unit >= limit * bound
    ensures unit > bound
  {
    if unit <= bound {
      FactorsGrow(p, unit, bound);
      FactorsGrow(bound, p + 1, limit);
    }
  }

  lemma FactorsGrow(k: int, x: int, y: int)
    requires k >= 0 && x <= y
    ensures k * x <= k * y
  {
    ProductNonNegative(k, y - x);
    assert k * (y - x) == k * y - k * x;
  }

  lemma PowerSplit()
    ensures Pow10(PRECISION - 1) == Pow10(23) * 10000
  {
    Pow10Add(23, 4);
  }

  lemma UnitIsLarge(p: nat, a: nat, unit: nat, numerator: nat, limit: nat)
    requires 0 < p < limit && 0 < a && p * unit >= numerator * a && numerator == limit * 10000
    ensures unit > 10000 * a
  {
    assert numerator * a == limit * (10000 * a);
    UnitExceeds(p, a, unit, limit);
  }

  lemma UnitIsRound(e: nat)
    requires Pow10(e) > 10000
    ensures Pow10(e) % 20000 == 0
  {
    if e <= 4 {
      Pow10Monotone(e, 4);
      assert false;
    }
    Pow10Add(5, e - 5);
    MultipleHasNoRemainder(5 * Pow10(e - 5), 20000);
  }

  lemma TwoRoundingsAreOne(p: nat, a: nat, unit: nat)
    requires a > 0 && unit > 10000 * a && unit % 20000 == 0
    ensures RoundHalfUp(10000 * RoundHalfEven(p * unit, a), unit) == RoundHalfUp(10000 * p, a)
  {
    var n, c := RoundHalfUp(10000 * p, a), RoundHalfEven(p * unit, a);
    RoundHalfUpBounds(10000 * p, a);
    RoundHalfEvenNear(p * unit, a);
    if 20000 * p + a == 2 * (n * a) {
      BoundaryDividesEvenly(p, a, unit, n);
    }
    SmallErrorIsHarmless(p, a, unit, c, n);
    RoundHalfUpIs(10000 * c, unit, n);
  }

  lemma ScaledScore(p: nat, a: nat, unit: nat)
    requires 0 < p <= a && p < Pow10(23) && unit == Pow10(Scale(p, a))
    ensures RoundHalfUp(10000 * RoundHalfEven(p * unit, a), unit) == RoundHalfUp(10000 * p, a)
  {
    PowerSplit();
    UnitIsLarge(p, a, unit, Pow10(PRECISION - 1), Pow10(23));
    UnitIsRound(Scale(p, a));
    TwoRoundingsAreOne(p, a, unit);
  }

  lemma ScoreIsRoundHalfUp(passed: nat, assessed: nat)
    requires passed <= assessed && assessed > 0 && passed < Pow10(23)
    ensures Score(passed, assessed) == RoundHalfUp(10000 * passed, assessed)
  {
    TimesHundredIsExact(Divide(passed, assessed));
    if passed > 0 {
      ScaledScore(passed, assessed, Pow10(Scale(passed, assessed)));
      DivideIsRounding(passed, assessed);
    } else {
      QuotientIs(assessed, 2 * assessed, 0);
    }
  }

  /** The double rounding is harmless: with fewer than 10^23 passing controls the Decimal score is
      the single-step formula floor((20000 passed + assessed) / (2 assessed)), in hundredths. */
  lemma ScoreIsSingleRounding(passed: nat, assessed: nat)
    requires passed <= assessed && assessed > 0 && passed < Pow10(23)
    ensures Score(passed, assessed) == (20000 * passed + assessed) / (2 * assessed)
  {
    ScoreIsRoundHalfUp(passed, assessed);
  }

  /** With fewer than 10^23 passing controls, a score reads 100.00 exactly when the controls that
      did not pass are at most one in twenty thousand of those assessed. */
  lemma PerfectScore(passed: nat, assessed: nat)
    requires passed <= assessed && assessed > 0 && passed < Pow10(23)
    ensures Score(passed, assessed) == 10000 <==> 20000 * (assessed - passed) <= assessed
    ensures assessed < 20000 ==> (Score(passed, assessed) == 10000 <==> passed == assessed)
  {
    ScoreIsRoundHalfUp(passed, assessed);
    RoundHalfUpBounds(10000 * passed, assessed);
    FullMarks(passed, assessed, RoundHalfUp(10000 * passed, assessed));
  }

  lemma FullMarks(p: int, a: int, n: int)
    requires 0 <= p <= a && a > 0 && 2 * (n * a) <= 20000 * p + a < 2 * (n * a) + 2 * a
    ensures n == 10000 <==> 20000 * (a - p) <= a
  {
    ProductSign(n - 10001, a);
    ProductSign(9999 - n, a);
  }

  // ----- monotonicity and range, for any number of controls

  lemma QuotientMonotone(x: nat, y: nat, d: nat)
    requires d > 0 && x <= y
    ensures x / d <= y / d && (x / d == y / d ==> x % d <= y % d)
  {
    var q, r, s, t := x / d, x % d, y / d, y % d;
    assert x == q * d + r && y == s * d + t;
    ProductSign(s - q, d);
    ProductSign(q - s - 1, d);
  }

  lemma RoundHalfEvenMonotone(x: nat, y: nat, d: nat)
    requires d > 0 && x <= y
    ensures RoundHalfEven(x, d) <= RoundHalfEven(y, d)
  {
    QuotientMonotone(x, y, d);
  }

  lemma RoundHalfEvenExact(k: nat, d: nat)
    requires d > 0
    ensures RoundHalfEven(k * d, d) == k
  {
    QuotientIs(k * d, d, k);
  }

  lemma CrossMultiply(x: int, d: int, y: int, f: int, m: int, n: int)
    requires d > 0 && f > 0 && x * f <= y * d
    requires 2 * (m * d) <= 2 * x + d && 2 * y + f < 2 * (n * f) + 2 * f
    ensures m <= n
  {
    ProductNonNegative(2 * x + d - 2 * (m * d), f);
    ProductNonNegative(2 * (n * f) + f - 2 * y - 1, d);
    assert (2 * x + d - 2 * (m * d)) * f == 2 * (x * f) + d * f - 2 * (m * (d * f));
    assert (2 * (n * f) + f - 2 * y - 1) * d == 2 * (n * (d * f)) + d * f - 2 * (y * d) - d;
    assert (m - n - 1) * (d * f) == m * (d * f) - n * (d * f) - d * f;
    ProductNonNegative(d - 1, f);
    assert (d - 1) * f == d * f - f;
    ProductSign(m - n - 1, d * f);
  }

  lemma CrossMonotone(x: nat, d: nat, y: nat, f: nat)
    requires d > 0 && f > 0 && x * f <= y * d
    ensures RoundHalfUp(x, d) <= RoundHalfUp(y, f)
  {
    RoundHalfUpBounds(x, d);
    RoundHalfUpBounds(y, f);
    CrossMultiply(x, d, y, f, RoundHalfUp(x, d), RoundHalfUp(y, f));
  }

  lemma {:induction false} ScaleFromAntitone(p: nat, q: nat, a: nat, e: nat)
    requires 0 < p <= q && a > 0
    ensures ScaleFrom(q, a, e) <= ScaleFrom(p, a, e)
    decreases ScaleFrom(p, a, e) - e
  {
    if p * Pow10(e) >= Pow10(PRECISION - 1) * a {
      ProductNonNegative(q - p, Pow10(e));
      assert q * Pow10(e) == p * Pow10(e) + (q - p) * Pow10(e);
    } else if q * Pow10(e) < Pow10(PRECISION - 1) * a {
      ScaleFromAntitone(p, q, a, e + 1);
    }
  }

  lemma ScaleAntitone(p: nat, q: nat, a: nat)
    requires 0 < p <= q && a > 0
    ensures Scale(q, a) <= Scale(p, a)
  {
    ScaleFromAntitone(p, q, a, 0);
  }

  /** The quotients compare like the exact fractions, whatever their scales. */
  lemma QuotientsCompare(p: nat, q: nat, a: nat, small: nat, large: nat)
    requires 0 < p <= q && a > 0 && 0 < large <= small
    requires large < small ==> 10 * large <= small && p * small < 10 * Pow10(PRECISION - 1) * a
    requires q * large >= Pow10(PRECISION - 1) * a
    ensures RoundHalfEven(p * small, a) * large <= RoundHalfEven(q * large, a) * small
  {
    var c, d, digits := RoundHalfEven(p * small, a), RoundHalfEven(q * large, a), Pow10(PRECISION - 1);
    if large == small {
      ProductNonNegative(q - p, small);
      RoundHalfEvenMonotone(p * small, q * large, a);
      ProductNonNegative(d - c, small);
    } else {
      RoundHalfEvenMonotone(p * small, 10 * digits * a, a);
      RoundHalfEvenExact(10 * digits, a);
      RoundHalfEvenMonotone(digits * a, q * large, a);
      RoundHalfEvenExact(digits, a);
      LooseCompare(c, d, digits, large, small);
    }
  }

  lemma LooseCompare(c: nat, d: nat, digits: nat, large: nat, small: nat)
    requires c <= 10 * digits && digits <= d && 10 * large <= small
    ensures c * large <= d * small
  {
    ProductNonNegative(10 * digits - c, large);
    ProductNonNegative(digits, small - 10 * large);
    ProductNonNegative(d - digits, small);
  }

  lemma ScalesApart(p: nat, q: nat, a: nat)
    requires 0 < p <= q && a > 0
    ensures var small, large := Pow10(Scale(p, a)), Pow10(Scale(q, a));
            && large <= small
            && (large < small ==> 10 * large <= small && p * small < 10 * Pow10(PRECISION - 1) * a)
  {
    ScaleAntitone(p, q, a);
    var e, f := Scale(q, a), Scale(p, a);
    if e < f {
      Pow10Monotone(e, f - 1);
      TenTimes(p, a, Pow10(f - 1), Pow10(PRECISION - 1));
    }
  }

  lemma TenTimes(p: nat, a: nat, unit: nat, digits: nat)
    requires p * unit < digits * a
    ensures p * (10 * unit) < 10 * digits * a
  {
    assert p * (10 * unit) == 10 * (p * unit);
    assert 10 * digits * a == 10 * (digits * a);
  }

  /** More passing controls among the same number assessed never lower the score. */
  lemma ScoreMonotone(p: nat, q: nat, assessed: nat)
    requires p <= q <= assessed
    ensures Score(p, assessed) <= Score(q, assessed)
  {
    if assessed > 0 {
      TimesHundredIsExact(Divide(p, assessed));
      TimesHundredIsExact(Divide(q, assessed));
      if p == 0 {
        QuotientIs(1, 2, 0);
      } else {
        DivideIsRounding(p, assessed);
        DivideIsRounding(q, assessed);
        CompareScores(p, q, assessed, Pow10(Scale(p, assessed)), Pow10(Scale(q, assessed)));
      }
    }
  }

  lemma CompareScores(p: nat, q: nat, a: nat, small: nat, large: nat)
    requires 0 < p <= q && a > 0 && small == Pow10(Scale(p, a)) && large == Pow10(Scale(q, a))
    ensures RoundHalfUp(10000 * RoundHalfEven(p * small, a), small) <= RoundHalfUp(10000 * RoundHalfEven(q * large, a), large)
  {
    ScalesApart(p, q, a);
    QuotientsCompare(p, q, a, small, large);
    TenThousandfold(RoundHalfEven(p * small, a), large, RoundHalfEven(q * large, a), small);
    CrossMonotone(10000 * RoundHalfEven(p * small, a), small, 10000 * RoundHalfEven(q * large, a), large);
  }

  lemma TenThousandfold(c: nat, large: nat, d: nat, small: nat)
    requires c * large <= d * small
    ensures (10000 * c) * large <= (10000 * d) * small
  {
    assert (10000 * c) * large == 10000 * (c * large);
    assert (10000 * d) * small == 10000 * (d * small);
  }

  lemma FullScore(assessed: nat)
    requires assessed > 0
    ensures Score(assessed, assessed) == 10000
  {
    var unit := Pow10(Scale(assessed, assessed));
    TimesHundredIsExact(Divide(assessed, assessed));
    DivideIsRounding(assessed, assessed);
    assert assessed * unit == unit * assessed;
    RoundHalfEvenExact(unit, assessed);
    RoundHalfUpIs(10000 * unit, unit, 10000);
  }

  /** Every score lies between 0.00 and 100.00. */
  lemma ScoreRange(passed: nat, assessed: nat)
    requires passed <= assessed
    ensures Score(passed, assessed) <= 10000
  {
    if assessed > 0 {
      ScoreMonotone(passed, assessed, assessed);
      FullScore(assessed);
    }
  }
}

/**
 * Exact decimal money, as java.math.BigDecimal: an unscaled integer and a scale.
 * Two decimals are `==` exactly when both parts agree, which is what Kotlin's `==`
 * (BigDecimal.equals) does; numeric comparison and arithmetic go through Value.
 */
module Money {

  datatype Decimal = Decimal(unscaled: int, scale: nat)

  /** BigDecimal.ZERO: unscaled 0, scale 0. */
  const Zero: Decimal := Decimal(0, 0)

  function Pow10(n: nat): (r: nat)
    ensures r >= 1
  {
    if n == 0 then 1 else 10 * Pow10(n - 1)
  }

  /** The number a decimal denotes. */
  function Value(d: Decimal): real
  {
    d.unscaled as real / Pow10(d.scale) as real
  }

  /** `d == BigDecimal.ZERO` in Kotlin: scale-sensitive, so 0.00 is not ZERO. */
  predicate IsZeroLiteral(d: Decimal)
  {
    d == Zero
  }

  lemma ValueZeroIff(d: Decimal)
    ensures Value(d) == 0.0 <==> d.unscaled == 0
  {
    var p := Pow10(d.scale) as real;
    assert p > 0.0;
    if Value(d) == 0.0 {
      assert d.unscaled as real == Value(d) * p;
    }
  }

  /** Only BigDecimal.ZERO itself is the zero literal; 0.00 has value 0 but is not it. */
  lemma ZeroLiteralIsScaleSensitive(d: Decimal)
    ensures IsZeroLiteral(d) ==> Value(d) == 0.0
    ensures d == Decimal(0, 2) ==> Value(d) == 0.0 && !IsZeroLiteral(d)
  {
    ValueZeroIff(d);
  }

  /** The sum of the values of a list of amounts. */
  function Sum(ds: seq<Decimal>): real
  {
    if ds == [] then 0.0 else Sum(ds[..|ds| - 1]) + Value(ds[|ds| - 1])
  }

  lemma {:induction false} SumAppend(a: seq<Decimal>, b: seq<Decimal>)
    ensures Sum(a + b) == Sum(a) + Sum(b)
  {
    if b == [] {
      assert a + b == a;
    } else {
      assert (a + b)[..|a + b| - 1] == a + b[..|b| - 1];
      SumAppend(a, b[..|b| - 1]);
    }
  }

  /**
   * The scale of `d.stripTrailingZeros()`, clamped below at 0: trailing zero
   * digits after the point are dropped one by one. Only compared with 2 in the
   * source, so a negative stripped scale is reported as 0.
   */
  function StrippedScale(d: Decimal): (r: nat)
    ensures r <= d.scale
    decreases d.scale
  {
    if d.unscaled == 0 then 0
    else if d.scale > 0 && d.unscaled % 10 == 0 then StrippedScale(Decimal(d.unscaled / 10, d.scale - 1))
    else d.scale
  }

  /** A value has at most two decimal places exactly when its stripped scale is at most 2. */
  lemma {:induction false} StrippedScaleAtMostTwo(d: Decimal)
    ensures StrippedScale(d) <= 2 <==> d.scale <= 2 || d.unscaled % Pow10(d.scale - 2) == 0
    decreases d.scale
  {
    if d.unscaled == 0 {
    } else if d.scale > 0 && d.unscaled % 10 == 0 {
      var e := Decimal(d.unscaled / 10, d.scale - 1);
      StrippedScaleAtMostTwo(e);
      assert d.unscaled == 10 * e.unscaled;
      if d.scale > 2 {
        var p := Pow10(d.scale - 3);
        assert Pow10(d.scale - 2) == 10 * p;
        DivisibleTimesTen(e.unscaled, p);
      }
    } else if d.scale > 2 {
      var p := Pow10(d.scale - 3);
      assert Pow10(d.scale - 2) == 10 * p;
      assert d.unscaled % 10 != 0;
      NotDivisibleByTenNotDivisible(d.unscaled, p);
    }
  }

  /** Division with remainder has one answer. */
  lemma ModUnique(a: int, m: int, q: int, r: int)
    requires m > 0 && 0 <= r < m && a == m * q + r
    ensures a % m == r && a / m == q
  {
    var q0, r0 := a / m, a % m;
    assert m * (q - q0) == r0 - r;
    if q > q0 {
      MulAtLeast(m, q - q0);
    } else if q < q0 {
      MulAtLeast(m, q0 - q);
    }
  }

  lemma MulAtLeast(m: int, k: int)
    requires m > 0 && k >= 1
    ensures m * k >= m
  {
  }

  lemma DivisibleTimesTen(x: int, p: nat)
    requires p >= 1
    ensures (10 * x) % (10 * p) == 0 <==> x % p == 0
  {
    var q, r := x / p, x % p;
    assert 10 * x == (10 * p) * q + 10 * r;
    ModUnique(10 * x, 10 * p, q, 10 * r);
  }

  lemma NotDivisibleByTenNotDivisible(x: int, p: nat)
    requires p >= 1 && x % 10 != 0
    ensures x % (10 * p) != 0
  {
    var q, r := x / (10 * p), x % (10 * p);
    assert x == 10 * (p * q) + r;
    ModUnique(x, 10, p * q + r / 10, r % 10);
    assert r % 10 != 0;
  }
}

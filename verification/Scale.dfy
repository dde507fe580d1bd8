/** The saturating curve both scores share, and Go's rounding. */
module Scale {

  /** What the scores need of `x => 1 - exp(-x)`: zero at zero, never falling,
      always below one. The exponential itself is not axiomatised. */
  ghost predicate Saturating(s: real -> real) {
    && s(0.0) == 0.0
    && (forall x, y :: 0.0 <= x <= y ==> s(x) <= s(y))
    && (forall x :: 0.0 <= x ==> 0.0 <= s(x) < 1.0)
  }

  /** A curve with the same shape, so that `Curve` is inhabited. */
  const HYPERBOLA: real -> real := x => if x <= 0.0 then 0.0 else x / (1.0 + x)

  type Curve = s: real -> real | Saturating(s) witness (HyperbolaSaturates(); HYPERBOLA)

  lemma HyperbolaSaturates()
    ensures Saturating(HYPERBOLA)
  {
    forall x, y | 0.0 <= x <= y ensures HYPERBOLA(x) <= HYPERBOLA(y) {
      HyperbolaRises(x, y);
    }
    forall x | 0.0 <= x ensures 0.0 <= HYPERBOLA(x) < 1.0 {
      HyperbolaRises(x, x);
    }
  }

  lemma HyperbolaRises(x: real, y: real)
    requires 0.0 <= x <= y
    ensures 0.0 <= HYPERBOLA(x) <= HYPERBOLA(y) < 1.0
  {
    ReciprocalFalls(1.0 + x, 1.0 + y);
    ReciprocalFalls(1.0, 1.0 + x);
    Complement(x);
    Complement(y);
  }

  lemma Complement(x: real)
    requires 0.0 <= x
    ensures HYPERBOLA(x) == 1.0 - 1.0 / (1.0 + x)
  {
    var r := 1.0 / (1.0 + x);
    assert r * (1.0 + x) == 1.0;
    assert x / (1.0 + x) == x * r;
  }

  lemma ReciprocalFalls(a: real, b: real)
    requires 0.0 < a <= b
    ensures 0.0 < 1.0 / b <= 1.0 / a
  {
    var p, q := 1.0 / a, 1.0 / b;
    assert p * a == 1.0 && q * b == 1.0;
    assert q > 0.0 && p > 0.0;
    assert q * a <= q * b;
    assert (p - q) * a >= 0.0;
  }

  /** Go's `math.Round` on the non-negative values it is given here. */
  function Round(x: real): int {
    (x + 0.5).Floor
  }

  /** A score out of 100 for a raw weight: `int(math.Round(100 * s(x)))`. */
  function Percent(s: Curve, x: real): int {
    Round(100.0 * s(x))
  }

  lemma PercentMonotone(s: Curve, x: real, y: real)
    requires 0.0 <= x <= y
    ensures 0 <= Percent(s, x) <= Percent(s, y) <= 100
  {
    assert s(x) <= s(y);
  }

  function ClampInt(v: int, lo: int, hi: int): int {
    if v < lo then lo else if v > hi then hi else v
  }

  function Clamp01(v: real): real {
    if v < 0.0 then 0.0 else if v > 1.0 then 1.0 else v
  }
}

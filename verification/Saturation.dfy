/** How far the declared requirement "never reaches 100" is from the code. The
    exponential is not axiomatised; what is used of it is that it is at least its
    Taylor polynomial of degree four. */
module Saturation {
  import opened Scale
  import opened Sums
  import opened Risk
  import opened RiskTheorems

  function OnePlus(a: real, b: real): (r: real)
    requires a >= 0.0 && b >= 1.0
    ensures r >= 1.0
  {
    MulMonotone(0.0, 0.0, a, b);
    1.0 + a * b
  }

  lemma OnePlusRises(a: real, b: real, c: real, d: real)
    requires 0.0 <= a <= c && 1.0 <= b <= d
    ensures OnePlus(a, b) <= OnePlus(c, d)
  {
    MulMonotone(a, b, c, d);
  }

  /** 1 + x + x^2/2 + x^3/6 + x^4/24, which exp(x) is never below. */
  function Taylor(x: real): (p: real)
    requires x >= 0.0
    ensures p >= 1.0
  {
    OnePlus(x, OnePlus(x / 2.0, OnePlus(x / 3.0, 1.0 + x / 4.0)))
  }

  /** True of `1 - exp(-x)`. */
  ghost predicate RisesLikeExp(curve: Curve) {
    forall x: real :: x >= 0.0 ==> curve(x) >= 1.0 - 1.0 / Taylor(x)
  }

  lemma TaylorRises(x: real, y: real)
    requires 0.0 <= x <= y
    ensures Taylor(x) <= Taylor(y)
  {
    hide OnePlus;
    OnePlusRises(x / 3.0, 1.0 + x / 4.0, y / 3.0, 1.0 + y / 4.0);
    OnePlusRises(x / 2.0, OnePlus(x / 3.0, 1.0 + x / 4.0), y / 2.0, OnePlus(y / 3.0, 1.0 + y / 4.0));
    OnePlusRises(x, OnePlus(x / 2.0, OnePlus(x / 3.0, 1.0 + x / 4.0)), y, OnePlus(y / 2.0, OnePlus(y / 3.0, 1.0 + y / 4.0)));
  }

  lemma NearOne(curve: Curve, x: real)
    requires RisesLikeExp(curve) && x >= 7.2
    ensures curve(x) >= 0.995
  {
    TaylorRises(7.2, x);
    assert Taylor(7.2) >= 200.0;
    ReciprocalFalls(200.0, Taylor(x));
  }

  /** From a raw weight of 396 on, every input reports 100. */
  lemma HundredFrom396(curve: Curve, a: Input)
    requires RisesLikeExp(curve) && a.findings != [] && Raw(curve, a) >= 396.0
    ensures Assessed(curve, a).score == 100
  {
    hide Assessed, Raw, RisesLikeExp;
    NearOne(curve, Raw(curve, a) / SATURATION);
    ReachesHundred(curve, a);
  }

  /** One certain critical finding in each of the nine categories reports 100. */
  lemma NineReachHundred(curve: Curve)
    requires RisesLikeExp(curve)
    ensures Assessed(curve, ALL_NINE).score == 100
  {
    hide Assessed, Raw, RisesLikeExp;
    AllNineReportHundred(curve);
    NineDistinct();
    HundredFrom396(curve, ALL_NINE);
  }

  /** The exact condition on the weight: wherever a curve's last half percent begins,
      the reported score is 100 from that weight upward and nowhere below. */
  lemma HundredExactlyFrom(curve: Curve, start: real, a: Input)
    requires forall x :: x >= 0.0 ==> (curve(x) >= 0.995 <==> x >= start)
    requires a.findings != []
    ensures Assessed(curve, a).score == 100 <==> Raw(curve, a) >= SATURATION * start
  {
    hide Assessed, Raw;
    ReachesHundred(curve, a);
    RawNotNegative(curve, a);
  }

  /** A curve with such a point, and where it lies. */
  lemma HyperbolaStartsAt199()
    ensures Saturating(HYPERBOLA) && forall x :: x >= 0.0 ==> (HYPERBOLA(x) >= 0.995 <==> x >= 199.0)
  {
    HyperbolaSaturates();
    forall x | x >= 0.0 ensures HYPERBOLA(x) >= 0.995 <==> x >= 199.0 {
      Complement(x);
      var r := 1.0 / (1.0 + x);
      assert r * (1.0 + x) == 1.0;
      if x >= 199.0 {
        ReciprocalFalls(200.0, 1.0 + x);
      } else {
        assert r > 0.005 by {
          if r <= 0.005 {
            MulMonotone(r, 1.0 + x, 0.005, 1.0 + x);
            assert false;
          }
        }
      }
    }
  }

  lemma RawNotNegative(curve: Curve, a: Input)
    requires a.findings != []
    ensures Raw(curve, a) >= 0.0
  {
    var emb := SubsetEmbeds(a.findings, a.findings);
    hide Raw, Covers;
    RawGrows(curve, a, a, emb);
  }

  // -------------------------------------------------------------------------
  // A curve that meets the bound, so that the failure is not hypothetical
  // -------------------------------------------------------------------------

  const QUARTIC: real -> real := x => if x <= 0.0 then 0.0 else 1.0 - 1.0 / Taylor(x)

  lemma QuarticSaturates()
    ensures Saturating(QUARTIC)
  {
    forall x, y | 0.0 <= x <= y ensures QUARTIC(x) <= QUARTIC(y) {
      TaylorRises(x, y);
      ReciprocalFalls(Taylor(x), Taylor(y));
      ReciprocalFalls(1.0, Taylor(y));
    }
    forall x | 0.0 <= x ensures 0.0 <= QUARTIC(x) < 1.0 {
      ReciprocalFalls(1.0, Taylor(x));
    }
  }

  /** A saturating curve and an input on which the reported score is 100. */
  lemma NeverHundredFails()
    ensures Saturating(QUARTIC)
    ensures var curve: Curve := QUARTIC; Assessed(curve, ALL_NINE).score == 100
  {
    QuarticSaturates();
    var curve: Curve := QUARTIC;
    assert Taylor(0.0) == 1.0;
    NineReachHundred(curve);
  }
}

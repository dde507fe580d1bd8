/** Monotonicity, order-independence, saturation and the anti-repetition bound of
    the risk score. */
module RiskTheorems {
  import opened Findings
  import opened Sums
  import opened Scale
  import opened Risk

  // -------------------------------------------------------------------------
  // Comparing two sets of findings
  // -------------------------------------------------------------------------

  /** `emb` sends each finding of `fs` to a different finding of `gs` of the same
      category that is at least as strong and as credible. */
  ghost predicate Covers(fs: seq<Finding>, gs: seq<Finding>, emb: seq<nat>) {
    && |emb| == |fs|
    && (forall i :: 0 <= i < |emb| ==> emb[i] < |gs|)
    && (forall i, j :: 0 <= i < j < |emb| ==> emb[i] != emb[j])
    && (forall i :: 0 <= i < |fs| ==> AtLeast(fs[i], gs[emb[i]]))
  }

  predicate AtLeast(f: Finding, g: Finding) {
    && f.category == g.category
    && SeverityWeight(f.severity) <= SeverityWeight(g.severity)
    && Clamp01(f.confidence) <= Clamp01(g.confidence)
  }

  lemma AtLeastStronger(f: Finding, g: Finding)
    requires AtLeast(f, g)
    ensures 0.0 <= Strength(f) <= Strength(g)
    ensures 0.0 <= Belief(f) <= Belief(g) <= 1.0
  {
    MulMonotone(SeverityWeight(f.severity), Clamp01(f.confidence), SeverityWeight(g.severity), Clamp01(g.confidence));
  }

  /** `Best` is an upper bound of its category ... */
  lemma {:induction false} BestBounds(fs: seq<Finding>, c: string, v: Finding -> real, i: nat)
    requires i < |fs| && fs[i].category == c
    ensures v(fs[i]) <= Best(fs, c, v)
    decreases |fs|
  {
    var n := |fs| - 1;
    if i < n {
      BestBounds(fs[..n], c, v, i);
    }
  }

  /** ... and is attained, unless it is zero. */
  lemma {:induction false} BestAttained(fs: seq<Finding>, c: string, v: Finding -> real)
    ensures Best(fs, c, v) >= 0.0
    ensures Best(fs, c, v) == 0.0 || exists i :: 0 <= i < |fs| && fs[i].category == c && v(fs[i]) == Best(fs, c, v)
    decreases |fs|
  {
    if fs != [] {
      var n := |fs| - 1;
      BestAttained(fs[..n], c, v);
      if Best(fs, c, v) == Best(fs[..n], c, v) && Best(fs, c, v) != 0.0 {
        var i :| 0 <= i < n && fs[..n][i].category == c && v(fs[..n][i]) == Best(fs[..n], c, v);
        assert fs[i] == fs[..n][i];
      } else if Best(fs, c, v) != 0.0 {
        assert fs[n].category == c && v(fs[n]) == Best(fs, c, v);
      }
    }
  }

  lemma BestGrows(fs: seq<Finding>, gs: seq<Finding>, emb: seq<nat>, c: string, v: Finding -> real)
    requires Covers(fs, gs, emb)
    requires forall f, g :: AtLeast(f, g) ==> v(f) <= v(g)
    ensures 0.0 <= Best(fs, c, v) <= Best(gs, c, v)
  {
    BestAttained(fs, c, v);
    BestAttained(gs, c, v);
    if Best(fs, c, v) != 0.0 {
      var i :| 0 <= i < |fs| && fs[i].category == c && v(fs[i]) == Best(fs, c, v);
      assert AtLeast(fs[i], gs[emb[i]]);
      BestBounds(gs, c, v, emb[i]);
    }
  }

  ghost function Positions(fs: seq<Finding>, c: string): set<nat> {
    set i: nat | i < |fs| && fs[i].category == c
  }

  lemma {:induction false} CountPositions(fs: seq<Finding>, c: string)
    ensures Count(fs, c) == |Positions(fs, c)|
    decreases |fs|
  {
    if fs != [] {
      var n := |fs| - 1;
      CountPositions(fs[..n], c);
      if fs[n].category == c {
        assert Positions(fs, c) == Positions(fs[..n], c) + {n};
      } else {
        assert Positions(fs, c) == Positions(fs[..n], c);
      }
    }
  }

  lemma {:induction false} InjectionCounts(s: set<nat>, t: set<nat>, emb: seq<nat>)
    requires forall i :: i in s ==> i < |emb| && emb[i] in t
    requires forall i, j :: i in s && j in s && i != j ==> emb[i] != emb[j]
    ensures |s| <= |t|
    decreases s
  {
    if s != {} {
      var i :| i in s;
      InjectionCounts(s - {i}, t - {emb[i]}, emb);
    }
  }

  lemma CountGrows(fs: seq<Finding>, gs: seq<Finding>, emb: seq<nat>, c: string)
    requires Covers(fs, gs, emb)
    ensures Count(fs, c) <= Count(gs, c)
  {
    CountPositions(fs, c);
    CountPositions(gs, c);
    forall i | i in Positions(fs, c) ensures i < |emb| && emb[i] in Positions(gs, c) {
      assert AtLeast(fs[i], gs[emb[i]]);
    }
    InjectionCounts(Positions(fs, c), Positions(gs, c), emb);
  }

  lemma CategoriesGrow(fs: seq<Finding>, gs: seq<Finding>, emb: seq<nat>)
    requires Covers(fs, gs, emb)
    ensures Categories(fs) <= Categories(gs)
    ensures |Categories(fs)| <= |Categories(gs)|
  {
    forall c | c in Categories(fs) ensures c in Categories(gs) {
      var f :| f in fs && f.category == c;
      var i :| 0 <= i < |fs| && fs[i] == f;
      assert AtLeast(fs[i], gs[emb[i]]) && gs[emb[i]] in gs;
    }
    assert Categories(gs) == Categories(fs) + (Categories(gs) - Categories(fs));
  }

  // -------------------------------------------------------------------------
  // Monotonicity
  // -------------------------------------------------------------------------

  lemma RepetitionBounds(curve: Curve, m: int, n: int)
    requires m <= n
    ensures 1.0 <= RepetitionFactor(curve, m) <= RepetitionFactor(curve, n) < 1.5
  {
    if m > 1 {
      assert (m - 1) as real / REPETITION_HALF_LIFE <= (n - 1) as real / REPETITION_HALF_LIFE;
    }
  }

  lemma StrengthMonotone()
    ensures forall f, g :: AtLeast(f, g) ==> Strength(f) <= Strength(g)
    ensures forall f, g :: AtLeast(f, g) ==> Belief(f) <= Belief(g)
  {
    forall f, g | AtLeast(f, g) ensures Strength(f) <= Strength(g) && Belief(f) <= Belief(g) {
      AtLeastStronger(f, g);
    }
  }

  lemma CategoryWeightGrows(curve: Curve, fs: seq<Finding>, gs: seq<Finding>, emb: seq<nat>, c: string)
    requires Covers(fs, gs, emb)
    ensures 0.0 <= CategoryWeight(curve, fs)(c) <= CategoryWeight(curve, gs)(c)
  {
    hide Best, Count, RepetitionFactor, Strength, Covers, AtLeast;
    StrengthMonotone();
    BestGrows(fs, gs, emb, c, Strength);
    CountGrows(fs, gs, emb, c);
    RepetitionBounds(curve, Count(fs, c), Count(gs, c));
    MulMonotone(Best(fs, c, Strength), RepetitionFactor(curve, Count(fs, c)),
                Best(gs, c, Strength), RepetitionFactor(curve, Count(gs, c)));
  }

  lemma CategoryWeightNonNegative(curve: Curve, fs: seq<Finding>, c: string)
    ensures 0.0 <= CategoryWeight(curve, fs)(c)
  {
    hide Best, Count, RepetitionFactor, Strength;
    BestAttained(fs, c, Strength);
    RepetitionBounds(curve, Count(fs, c), Count(fs, c));
    MulMonotone(0.0, 0.0, Best(fs, c, Strength), RepetitionFactor(curve, Count(fs, c)));
  }

  lemma EvidenceGrows(curve: Curve, fs: seq<Finding>, gs: seq<Finding>, emb: seq<nat>)
    requires Covers(fs, gs, emb)
    ensures 0.0 <= Evidence(curve, fs) <= Evidence(curve, gs)
  {
    hide CategoryWeight, Covers;
    CategoriesGrow(fs, gs, emb);
    var v, w := CategoryWeight(curve, fs), CategoryWeight(curve, gs);
    forall c ensures 0.0 <= v(c) <= w(c) {
      CategoryWeightGrows(curve, fs, gs, emb, c);
    }
    SumNonNegative(Categories(fs), v);
    SumGrows(Categories(fs), v, Categories(gs), w);
  }

  /** One input is at least as alarming as another in every respect. */
  ghost predicate Escalates(a: Input, b: Input, emb: seq<nat>) {
    && Covers(a.findings, b.findings, emb)
    && a.blastScore <= b.blastScore
    && (a.touchesCritical ==> b.touchesCritical)
  }

  lemma CoversSome(fs: seq<Finding>, gs: seq<Finding>, emb: seq<nat>)
    requires Covers(fs, gs, emb) && fs != []
    ensures gs != [] && |Categories(fs)| >= 1
  {
    assert emb[0] < |gs|;
    assert fs[0].category in Categories(fs);
  }

  lemma RawGrows(curve: Curve, a: Input, b: Input, emb: seq<nat>)
    requires Escalates(a, b, emb) && a.findings != []
    ensures 0.0 <= Raw(curve, a) <= Raw(curve, b) && b.findings != []
  {
    hide Evidence, Factor, Categories, Covers, Combined;
    CoversSome(a.findings, b.findings, emb);
    EvidenceGrows(curve, a.findings, b.findings, emb);
    CategoriesGrow(a.findings, b.findings, emb);
    var m, n := |Categories(a.findings)|, |Categories(b.findings)|;
    FactorGrows(m, a.touchesCritical, n, b.touchesCritical);
    CombinedMonotone(Evidence(curve, a.findings), Factor(m, a.touchesCritical), a.blastScore,
                     Evidence(curve, b.findings), Factor(n, b.touchesCritical), b.blastScore);
  }

  lemma CombinedMonotone(e: real, f: real, s: int, e': real, f': real, s': int)
    requires 0.0 <= e <= e' && 0.0 <= f <= f' && s <= s'
    ensures 0.0 <= Combined(e, f, s) <= Combined(e', f', s')
  {
    MulMonotone(e, f, e', f');
  }

  lemma FactorGrows(m: int, s: bool, n: int, t: bool)
    requires 1 <= m <= n && (s ==> t)
    ensures 1.0 <= Factor(m, s) <= Factor(n, t)
  {
  }

  lemma DoubtFalls(fs: seq<Finding>, gs: seq<Finding>, emb: seq<nat>)
    requires Covers(fs, gs, emb)
    ensures Product(Categories(gs), Doubt(gs)) <= Product(Categories(fs), Doubt(fs))
    ensures Unit(Product(Categories(gs), Doubt(gs))) && Unit(Product(Categories(fs), Doubt(fs)))
  {
    CategoriesGrow(fs, gs, emb);
    StrengthMonotone();
    forall c ensures Doubt(gs)(c) <= Doubt(fs)(c) && Unit(Doubt(fs)(c)) && Unit(Doubt(gs)(c)) {
      BestGrows(fs, gs, emb, c, Belief);
    }
    ProductShrinks(Categories(fs), Doubt(fs), Categories(gs), Doubt(gs));
  }

  lemma CappedMonotone(x: real, y: real)
    requires 0.0 <= x <= y
    ensures 0.0 <= Capped(x) <= Capped(y) <= MAX_CONFIDENCE
  {
    var p := if x > MAX_CONFIDENCE then MAX_CONFIDENCE else x;
    var q := if y > MAX_CONFIDENCE then MAX_CONFIDENCE else y;
    RoundBetween(p * 1000.0, q * 1000.0);
  }

  lemma RoundBetween(x: real, y: real)
    requires 0.0 <= x <= y <= 950.0
    ensures 0 <= Round(x) <= Round(y) <= 950
  {
  }

  /** Requirement 1: nothing that escalates an incident lowers what is reported. */
  lemma AssessMonotone(curve: Curve, a: Input, b: Input, emb: seq<nat>)
    requires Escalates(a, b, emb)
    ensures 0 <= Assessed(curve, a).score <= Assessed(curve, b).score <= 100
    ensures SeverityRank(Assessed(curve, a).severity) <= SeverityRank(Assessed(curve, b).severity)
    ensures 0.0 <= Assessed(curve, a).confidence <= Assessed(curve, b).confidence <= MAX_CONFIDENCE
    ensures Assessed(curve, a).evidenceCategories <= Assessed(curve, b).evidenceCategories
  {
    hide Score, Confidence, Categories, Covers, SeverityForScore;
    CategoriesGrow(a.findings, b.findings, emb);
    ScoreMonotone(curve, a, b, emb);
    SeverityFollowsScore(Score(curve, a), Score(curve, b));
    ConfidenceMonotone(a.findings, b.findings, emb);
  }

  lemma ConfidenceMonotone(fs: seq<Finding>, gs: seq<Finding>, emb: seq<nat>)
    requires Covers(fs, gs, emb)
    ensures 0.0 <= Confidence(fs) <= Confidence(gs) <= MAX_CONFIDENCE
  {
    hide Capped, Product, Doubt;
    assert fs != [] ==> emb[0] < |gs|;
    DoubtFalls(fs, gs, emb);
    var p, q := Product(Categories(fs), Doubt(fs)), Product(Categories(gs), Doubt(gs));
    CappedMonotone(1.0 - p, 1.0 - q);
  }

  lemma ScoreMonotone(curve: Curve, a: Input, b: Input, emb: seq<nat>)
    requires Escalates(a, b, emb)
    ensures 0 <= Score(curve, a) <= Score(curve, b) <= 100
  {
    hide Raw, Percent, Covers;
    if a.findings != [] {
      RawGrows(curve, a, b, emb);
      PercentMonotone(curve, Raw(curve, a) / SATURATION, Raw(curve, b) / SATURATION);
    }
  }

  /** Every assessment is in range. */
  lemma AssessInRange(curve: Curve, a: Input)
    ensures 0 <= Assessed(curve, a).score <= 100
    ensures 0.0 <= Assessed(curve, a).confidence <= MAX_CONFIDENCE
  {
    var emb := seq(|a.findings|, i => i);
    assert Covers(a.findings, a.findings, emb);
    AssessMonotone(curve, a, a, emb);
  }

  // -------------------------------------------------------------------------
  // Order does not matter
  // -------------------------------------------------------------------------

  /** A sub-multiset of findings embeds position by position. */
  lemma {:induction false} SubsetEmbeds(fs: seq<Finding>, gs: seq<Finding>) returns (emb: seq<nat>)
    requires multiset(fs) <= multiset(gs)
    ensures Covers(fs, gs, emb)
    decreases |fs|
  {
    if fs == [] {
      emb := [];
    } else {
      hide Covers;
      var init := fs[..|fs| - 1];
      var j := Occurrence(fs, gs);
      var rest := gs[..j] + gs[j + 1..];
      var e := SubsetEmbeds(init, rest);
      CoversLength(init, rest, e);
      emb := seq(|e|, i requires 0 <= i < |e| => if e[i] < j then e[i] else e[i] + 1) + [j];
      EmbeddingExtends(fs, gs, j, e, emb);
    }
  }

  lemma CoversLength(fs: seq<Finding>, gs: seq<Finding>, emb: seq<nat>)
    requires Covers(fs, gs, emb)
    ensures |emb| == |fs|
  {
  }

  lemma Occurrence(fs: seq<Finding>, gs: seq<Finding>) returns (j: nat)
    requires fs != [] && multiset(fs) <= multiset(gs)
    ensures j < |gs| && gs[j] == fs[|fs| - 1]
    ensures multiset(fs[..|fs| - 1]) <= multiset(gs[..j] + gs[j + 1..])
  {
    var f, init := fs[|fs| - 1], fs[..|fs| - 1];
    assert fs == init + [f];
    assert f in multiset(fs) && f in gs;
    j :| 0 <= j < |gs| && gs[j] == f;
    assert gs == gs[..j] + [f] + gs[j + 1..];
    assert multiset(gs) == multiset(gs[..j] + gs[j + 1..]) + multiset{f};
    assert multiset(fs) == multiset(init) + multiset{f};
    CancelOne(multiset(init), multiset(gs[..j] + gs[j + 1..]), f);
  }

  lemma CancelOne<T>(a: multiset<T>, b: multiset<T>, x: T)
    requires a + multiset{x} <= b + multiset{x}
    ensures a <= b
  {
    forall y ensures a[y] <= b[y] {
      assert (a + multiset{x})[y] == a[y] + multiset{x}[y];
      assert (b + multiset{x})[y] == b[y] + multiset{x}[y];
    }
  }

  lemma EmbeddingExtends(fs: seq<Finding>, gs: seq<Finding>, j: nat, e: seq<nat>, emb: seq<nat>)
    requires fs != [] && j < |gs| && gs[j] == fs[|fs| - 1]
    requires Covers(fs[..|fs| - 1], gs[..j] + gs[j + 1..], e)
    requires |emb| == |fs| && emb[|fs| - 1] == j
    requires forall i :: 0 <= i < |fs| - 1 ==> emb[i] == if e[i] < j then e[i] else e[i] + 1
    ensures Covers(fs, gs, emb)
  {
    var init, rest := fs[..|fs| - 1], gs[..j] + gs[j + 1..];
    forall i | 0 <= i < |fs| ensures emb[i] < |gs| && AtLeast(fs[i], gs[emb[i]]) {
      assert i < |init| ==> AtLeast(init[i], rest[e[i]]) && init[i] == fs[i];
    }
  }

  /** Adding findings, in any order and position, never lowers anything. */
  lemma AddingFindings(curve: Curve, a: Input, b: Input)
    requires multiset(a.findings) <= multiset(b.findings)
    requires a.blastScore == b.blastScore && a.touchesCritical == b.touchesCritical
    ensures Assessed(curve, a).score <= Assessed(curve, b).score
    ensures Assessed(curve, a).confidence <= Assessed(curve, b).confidence
  {
    var emb := SubsetEmbeds(a.findings, b.findings);
    AssessMonotone(curve, a, b, emb);
  }

  /** Permuting the findings changes nothing that is reported. */
  lemma OrderFree(curve: Curve, a: Input, b: Input)
    requires multiset(a.findings) == multiset(b.findings)
    requires a.blastScore == b.blastScore && a.touchesCritical == b.touchesCritical
    ensures Assessed(curve, a) == Assessed(curve, b)
  {
    var emb := SubsetEmbeds(a.findings, b.findings);
    var back := SubsetEmbeds(b.findings, a.findings);
    AssessMonotone(curve, a, b, emb);
    AssessMonotone(curve, b, a, back);
  }

  // -------------------------------------------------------------------------
  // Saturation: the comment says 100 is never reached, the code rounds
  // -------------------------------------------------------------------------

  /** The reported score reaches 100 exactly when the curve passes 0.995. */
  lemma ReachesHundred(curve: Curve, a: Input)
    requires a.findings != []
    ensures Assessed(curve, a).score == 100 <==> curve(Raw(curve, a) / SATURATION) >= 0.995
    ensures curve(Raw(curve, a) / SATURATION) < 1.0
  {
    var emb := seq(|a.findings|, i => i);
    assert Covers(a.findings, a.findings, emb);
    RawGrows(curve, a, a, emb);
  }

  function Certain(c: string): Finding {
    Finding("", c, CRITICAL_SEVERITY, 1.0, [], [], 0, 0)
  }

  // One certain, critical finding in each of the nine categories of the schema.
  const ALL_NINE := Input([
    Certain("authentication"), Certain("session_anomaly"), Certain("privilege_escalation"),
    Certain("credential_access"), Certain("cloud_access"), Certain("data_access"),
    Certain("process_execution"), Certain("network_activity"), Certain("configuration_change")], 0, false)

  lemma {:induction false} ConstantSum(s: set<string>, f: string -> real, w: real)
    requires forall x :: x in s ==> f(x) == w
    ensures Sum(s, f) == w * |s| as real
    decreases s
  {
    if s != {} {
      var x :| x in s;
      SumRemove(s, f, x);
      ConstantSum(s - {x}, f, w);
    }
  }

  lemma {:induction false} LoneFinding(fs: seq<Finding>, i: nat)
    requires i < |fs| && forall j :: 0 <= j < |fs| && j != i ==> fs[j].category != fs[i].category
    requires Strength(fs[i]) >= 0.0
    ensures Count(fs, fs[i].category) == 1 && Best(fs, fs[i].category, Strength) == Strength(fs[i])
    decreases |fs|
  {
    var n := |fs| - 1;
    if i < n {
      LoneFinding(fs[..n], i);
    } else {
      assert fs[i].category !in Categories(fs[..n]);
      AbsentCategory(fs[..n], fs[i].category);
    }
  }

  lemma {:induction false} CategoryCount(fs: seq<Finding>)
    requires forall i, j :: 0 <= i < j < |fs| ==> fs[i].category != fs[j].category
    ensures |Categories(fs)| == |fs|
    decreases |fs|
  {
    if fs != [] {
      var n := |fs| - 1;
      CategoryCount(fs[..n]);
      assert Categories(fs) == Categories(fs[..n]) + {fs[n].category};
    }
  }

  lemma OnceIsEnough(curve: Curve, w: real)
    ensures Times(w, RepetitionFactor(curve, 1)) == w
  {
    assert RepetitionFactor(curve, 1) == 1.0;
  }

  lemma AllCertain(curve: Curve, fs: seq<Finding>)
    requires forall i, j :: 0 <= i < j < |fs| ==> fs[i].category != fs[j].category
    requires forall i :: 0 <= i < |fs| ==> Strength(fs[i]) == 20.0
    ensures Evidence(curve, fs) == 20.0 * |fs| as real && |Categories(fs)| == |fs|
  {
    hide Strength, Best, Count, RepetitionFactor, Times;
    var w := CategoryWeight(curve, fs);
    forall c | c in Categories(fs) ensures w(c) == 20.0 {
      var i :| 0 <= i < |fs| && fs[i].category == c;
      LoneFinding(fs, i);
      OnceIsEnough(curve, 20.0);
    }
    hide CategoryWeight;
    CategoryCount(fs);
    ConstantSum(Categories(fs), w, 20.0);
  }

  lemma NineDistinct()
    ensures |ALL_NINE.findings| == 9
    ensures forall i, j :: 0 <= i < j < 9 ==> ALL_NINE.findings[i].category != ALL_NINE.findings[j].category
    ensures forall i :: 0 <= i < 9 ==> ALL_NINE.findings[i] == Certain(ALL_NINE.findings[i].category)
  {
    var fs := ALL_NINE.findings;
    // Lengths and first letters tell the nine names apart.
    assert |fs[0].category| == 14 && |fs[1].category| == 15 && |fs[2].category| == 20;
    assert |fs[3].category| == 17 && |fs[4].category| == 12 && |fs[5].category| == 11;
    assert |fs[6].category| == 17 && |fs[7].category| == 16 && |fs[8].category| == 20;
    assert fs[2].category[0] == 'p' && fs[8].category[0] == 'c';
    assert fs[3].category[0] == 'c' && fs[6].category[0] == 'p';
  }

  /** An input on which "never reaches 100" fails: its weight is 439.2, so it is
      reported as 100 as soon as the curve passes 0.995 at 439.2 / 55. (The real
      curve is 0.9996 there.) */
  lemma AllNineReportHundred(curve: Curve)
    ensures Raw(curve, ALL_NINE) == 439.2
    ensures Assessed(curve, ALL_NINE).score == 100 <==> curve(439.2 / SATURATION) >= 0.995
  {
    hide Evidence, Percent, Assessed;
    var fs := ALL_NINE.findings;
    NineDistinct();
    forall i | 0 <= i < |fs| ensures Strength(fs[i]) == 20.0 {
      assert fs[i] == Certain(fs[i].category);
    }
    AllCertain(curve, fs);
    ReachesHundred(curve, ALL_NINE);
  }

  // -------------------------------------------------------------------------
  // Repetition cannot fake corroboration
  // -------------------------------------------------------------------------

  ghost predicate OneCategory(fs: seq<Finding>, c: string) {
    fs != [] && forall f :: f in fs ==> f.category == c
  }

  lemma OneCategoryWeight(curve: Curve, fs: seq<Finding>, c: string)
    requires OneCategory(fs, c)
    ensures Categories(fs) == {c}
    ensures Evidence(curve, fs) == Times(Best(fs, c, Strength), RepetitionFactor(curve, |fs|))
  {
    hide Best, Count, RepetitionFactor, Times;
    assert fs[0] in fs;
    assert Categories(fs) == {c};
    CountAll(fs, c);
    SumRemove({c}, CategoryWeight(curve, fs), c);
    assert {c} - {c} == {};
    EmptySum(CategoryWeight(curve, fs));
  }

  lemma OneCategoryDoubt(fs: seq<Finding>, c: string)
    requires OneCategory(fs, c)
    ensures Product(Categories(fs), Doubt(fs)) == Doubt(fs)(c)
  {
    hide Best, Product;
    assert fs[0] in fs;
    assert Categories(fs) == {c};
    ProductRemove({c}, Doubt(fs), c);
    assert {c} - {c} == {};
    UnitTimes(Doubt(fs)(c));
    EmptyProduct(Doubt(fs));
  }

  lemma {:induction false} CountAll(fs: seq<Finding>, c: string)
    requires forall f :: f in fs ==> f.category == c
    ensures Count(fs, c) == |fs|
  {
    if fs != [] {
      CountAll(fs[..|fs| - 1], c);
      assert fs[|fs| - 1] in fs;
    }
  }

  /** However often one category repeats, it is worth less than half as much again
      as its strongest finding, and exactly as credible as its best one. */
  lemma RepetitionBounded(curve: Curve, fs: seq<Finding>, c: string, best: Finding)
    requires OneCategory(fs, c) && best in fs
    requires forall f :: f in fs ==> Belief(f) <= Belief(best)
    ensures Best(fs, c, Strength) <= Evidence(curve, fs)
    ensures Best(fs, c, Strength) > 0.0 ==> Evidence(curve, fs) < 1.5 * Best(fs, c, Strength)
    ensures Confidence(fs) == Confidence([best])
  {
    hide Best, RepetitionFactor, Evidence, Product, Belief, Capped, Categories, Times;
    OneCategoryWeight(curve, fs, c);
    BestAttained(fs, c, Strength);
    RepetitionBounds(curve, |fs|, |fs|);
    ScaledBetween(Best(fs, c, Strength), RepetitionFactor(curve, |fs|));
    OneCategoryDoubt(fs, c);
    OneCategoryDoubt([best], c);
    BeliefOfBest(fs, c, best);
    BeliefOfBest([best], c, best);
  }

  lemma ScaledBetween(a: real, k: real)
    requires 0.0 <= a && 1.0 <= k < 1.5
    ensures a <= Times(a, k)
    ensures a > 0.0 ==> Times(a, k) < 1.5 * a
  {
  }

  lemma BeliefOfBest(fs: seq<Finding>, c: string, best: Finding)
    requires OneCategory(fs, c) && best in fs
    requires forall f :: f in fs ==> Belief(f) <= Belief(best)
    ensures Best(fs, c, Belief) == Belief(best)
  {
    var i :| 0 <= i < |fs| && fs[i] == best;
    BestBounds(fs, c, Belief, i);
    BestAttained(fs, c, Belief);
  }

  /** Two categories that each reach the strength of a repeated one never score
      lower than the repetition does, whatever the blast radius adds. */
  lemma CorroborationWins(curve: Curve, a: Input, c: string, b: Input, i: nat, j: nat)
    requires OneCategory(a.findings, c)
    requires i < |b.findings| && j < |b.findings| && b.findings[i].category != b.findings[j].category
    requires Strength(b.findings[i]) >= Best(a.findings, c, Strength)
    requires Strength(b.findings[j]) >= Best(a.findings, c, Strength)
    requires a.blastScore == b.blastScore && a.touchesCritical == b.touchesCritical
    ensures Assessed(curve, a).score <= Assessed(curve, b).score
  {
    hide Best, RepetitionFactor, Evidence, Factor, Strength, Percent, Combined;
    var best := Best(a.findings, c, Strength);
    var r := RepetitionFactor(curve, |a.findings|);
    OneCategoryWeight(curve, a.findings, c);
    BestAttained(a.findings, c, Strength);
    RepetitionBounds(curve, |a.findings|, |a.findings|);
    TwoCategories(curve, b.findings, i, j, best);
    var m := |Categories(b.findings)|;
    FactorGrows(1, a.touchesCritical, m, b.touchesCritical);
    MulMonotone(best, r, best, 2.0);
    CombinedMonotone(Evidence(curve, a.findings), Factor(1, a.touchesCritical), a.blastScore,
                     Evidence(curve, b.findings), Factor(m, b.touchesCritical), b.blastScore);
    assert |Categories(a.findings)| == 1;
    PercentMonotone(curve, Raw(curve, a) / SATURATION, Raw(curve, b) / SATURATION);
  }

  lemma TwoCategories(curve: Curve, fs: seq<Finding>, i: nat, j: nat, best: real)
    requires i < |fs| && j < |fs| && fs[i].category != fs[j].category
    requires 0.0 <= best <= Strength(fs[i]) && best <= Strength(fs[j])
    ensures Evidence(curve, fs) >= 2.0 * best
    ensures |Categories(fs)| >= 2
  {
    hide CategoryWeight, Sum, Strength;
    var c, d := fs[i].category, fs[j].category;
    var w := CategoryWeight(curve, fs);
    forall x ensures 0.0 <= w(x) {
      CategoryWeightNonNegative(curve, fs, x);
    }
    WeightAtLeast(curve, fs, i);
    WeightAtLeast(curve, fs, j);
    var rest := Categories(fs) - {c} - {d};
    assert fs[i] in fs && fs[j] in fs;
    SumRemove(Categories(fs), w, c);
    SumRemove(Categories(fs) - {c}, w, d);
    SumNonNegative(rest, w);
    assert Categories(fs) == rest + {c, d};
    assert |Categories(fs)| == |rest| + |{c, d}|;
  }

  lemma WeightAtLeast(curve: Curve, fs: seq<Finding>, i: nat)
    requires i < |fs| && Strength(fs[i]) >= 0.0
    ensures CategoryWeight(curve, fs)(fs[i].category) >= Strength(fs[i])
  {
    hide Best, Count, RepetitionFactor, Strength;
    var c := fs[i].category;
    BestBounds(fs, c, Strength, i);
    RepetitionBounds(curve, Count(fs, c), Count(fs, c));
    ScaledBetween(Best(fs, c, Strength), RepetitionFactor(curve, Count(fs, c)));
  }
}

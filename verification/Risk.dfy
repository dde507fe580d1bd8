/** Risk scoring. `Assess` accumulates over maps in whatever order the runtime
    ranges over them; `Assessed` is the value it must arrive at. */
module Risk {
  import opened Findings
  import opened Sums
  import opened Scale

  const CATEGORY_BOOST := 0.18
  const CRITICAL_ASSET_BOOST := 0.15
  const BLAST_WEIGHT := 0.12
  const SATURATION := 55.0
  const MAX_CONFIDENCE := 0.95
  const REPETITION_CEILING := 0.5
  const REPETITION_HALF_LIFE := 3.0

  datatype Input = Input(findings: seq<Finding>, blastScore: int, touchesCritical: bool)

  datatype Assessment = Assessment(score: int, severity: string, confidence: real, evidenceCategories: nat)

  function SeverityForScore(score: int): string {
    if score >= 70 then CRITICAL_SEVERITY
    else if score >= 45 then HIGH_SEVERITY
    else if score >= 20 then MEDIUM_SEVERITY
    else if score > 0 then LOW_SEVERITY
    else INFORMATIONAL
  }

  lemma SeverityFollowsScore(a: int, b: int)
    requires a <= b
    ensures SeverityRank(SeverityForScore(a)) <= SeverityRank(SeverityForScore(b))
  {
  }

  function Strength(f: Finding): real {
    SeverityWeight(f.severity) * Clamp01(f.confidence)
  }

  function Belief(f: Finding): real {
    Clamp01(f.confidence)
  }

  function RepetitionFactor(curve: Curve, count: int): real {
    if count <= 1 then 1.0
    else 1.0 + REPETITION_CEILING * curve((count - 1) as real / REPETITION_HALF_LIFE)
  }

  // -------------------------------------------------------------------------
  // Per-category aggregates
  // -------------------------------------------------------------------------

  ghost function Categories(fs: seq<Finding>): set<string> {
    set f | f in fs :: f.category
  }

  /** Largest `v` among the findings of one category, and at least zero. */
  ghost function Best(fs: seq<Finding>, c: string, v: Finding -> real): real {
    if fs == [] then 0.0
    else
      var rest, f := Best(fs[..|fs| - 1], c, v), fs[|fs| - 1];
      if f.category == c && v(f) > rest then v(f) else rest
  }

  ghost function Count(fs: seq<Finding>, c: string): nat {
    if fs == [] then 0
    else Count(fs[..|fs| - 1], c) + if fs[|fs| - 1].category == c then 1 else 0
  }

  ghost function CategoryWeight(curve: Curve, fs: seq<Finding>): string -> real {
    c => Times(Best(fs, c, Strength), RepetitionFactor(curve, Count(fs, c)))
  }

  ghost function Evidence(curve: Curve, fs: seq<Finding>): real {
    Sum(Categories(fs), CategoryWeight(curve, fs))
  }

  function Factor(categories: int, touchesCritical: bool): real {
    1.0 + CATEGORY_BOOST * (categories - 1) as real + if touchesCritical then CRITICAL_ASSET_BOOST else 0.0
  }

  function Combined(evidence: real, factor: real, blastScore: int): real {
    evidence * factor + BLAST_WEIGHT * ClampInt(blastScore, 0, 100) as real
  }

  ghost function Raw(curve: Curve, input: Input): real {
    Combined(Evidence(curve, input.findings), Factor(|Categories(input.findings)|, input.touchesCritical), input.blastScore)
  }

  ghost function Score(curve: Curve, input: Input): int {
    if input.findings == [] then 0
    else ClampInt(Percent(curve, Raw(curve, input) / SATURATION), 0, 100)
  }

  ghost function Doubt(fs: seq<Finding>): string -> real {
    c => 1.0 - Clamp01(Best(fs, c, Belief))
  }

  function Capped(confidence: real): real {
    Round((if confidence > MAX_CONFIDENCE then MAX_CONFIDENCE else confidence) * 1000.0) as real / 1000.0
  }

  /** Noisy-or over the most confident finding of each category. */
  ghost function Confidence(fs: seq<Finding>): real {
    if fs == [] then 0.0 else Capped(1.0 - Product(Categories(fs), Doubt(fs)))
  }

  ghost function Assessed(curve: Curve, input: Input): Assessment {
    Assessment(Score(curve, input), SeverityForScore(Score(curve, input)),
               Confidence(input.findings), |Categories(input.findings)|)
  }

  // -------------------------------------------------------------------------
  // The scorer
  // -------------------------------------------------------------------------

  datatype CategoryEvidence = CategoryEvidence(bestWeighted: real, bestConfidence: real, count: int)

  ghost predicate Aggregates(byCategory: map<string, CategoryEvidence>, fs: seq<Finding>) {
    && byCategory.Keys == Categories(fs)
    && (forall c :: c in byCategory ==>
      byCategory[c] == CategoryEvidence(Best(fs, c, Strength), Best(fs, c, Belief), Count(fs, c)))
  }

  lemma AggregatesGrow(byCategory: map<string, CategoryEvidence>, fs: seq<Finding>, k: nat)
    requires k < |fs| && Aggregates(byCategory, fs[..k])
    ensures var f := fs[k];
      var agg := if f.category in byCategory then byCategory[f.category] else CategoryEvidence(0.0, 0.0, 0);
      Aggregates(byCategory[f.category := CategoryEvidence(
        if Strength(f) > agg.bestWeighted then Strength(f) else agg.bestWeighted,
        if Belief(f) > agg.bestConfidence then Belief(f) else agg.bestConfidence,
        agg.count + 1)], fs[..k + 1])
  {
    assert fs[..k + 1][..k] == fs[..k];
    assert Categories(fs[..k + 1]) == Categories(fs[..k]) + {fs[k].category};
    if fs[k].category !in Categories(fs[..k]) {
      AbsentCategory(fs[..k], fs[k].category);
    }
  }

  lemma {:induction false} AbsentCategory(fs: seq<Finding>, c: string)
    requires c !in Categories(fs)
    ensures Count(fs, c) == 0 && Best(fs, c, Strength) == 0.0 && Best(fs, c, Belief) == 0.0
  {
    if fs != [] {
      assert fs[|fs| - 1] in fs;
      AbsentCategory(fs[..|fs| - 1], c);
    }
  }

  method ByCategory(fs: seq<Finding>) returns (byCategory: map<string, CategoryEvidence>)
    ensures Aggregates(byCategory, fs)
  {
    byCategory := map[];
    for k := 0 to |fs|
      invariant Aggregates(byCategory, fs[..k])
    {
      AggregatesGrow(byCategory, fs, k);
      hide Aggregates;
      var f := fs[k];
      var agg := if f.category in byCategory then byCategory[f.category] else CategoryEvidence(0.0, 0.0, 0);
      var weighted, conf := SeverityWeight(f.severity) * Clamp01(f.confidence), Clamp01(f.confidence);
      agg := agg.(count := agg.count + 1);
      if weighted > agg.bestWeighted {
        agg := agg.(bestWeighted := weighted);
      }
      if conf > agg.bestConfidence {
        agg := agg.(bestConfidence := conf);
      }
      byCategory := byCategory[f.category := agg];
    }
    assert fs[..|fs|] == fs;
  }

  method SumEvidence(curve: Curve, byCategory: map<string, CategoryEvidence>, ghost fs: seq<Finding>)
    returns (evidence: real, bestByCategory: map<string, real>)
    requires Aggregates(byCategory, fs)
    ensures evidence == Evidence(curve, fs)
    ensures bestByCategory.Keys == Categories(fs)
    ensures forall c :: c in bestByCategory ==> bestByCategory[c] == Best(fs, c, Belief)
  {
    hide Best, Count, RepetitionFactor, Sum;
    EmptySum(CategoryWeight(curve, fs));
    evidence, bestByCategory := 0.0, map[];
    ghost var weight := CategoryWeight(curve, fs);
    var rest := byCategory.Keys;
    while rest != {}
      invariant rest <= byCategory.Keys
      invariant evidence + Sum(rest, weight) == Evidence(curve, fs)
      invariant bestByCategory.Keys == byCategory.Keys - rest
      invariant forall c :: c in bestByCategory ==> bestByCategory[c] == Best(fs, c, Belief)
    {
      var category :| category in rest;
      SumRemove(rest, weight, category);
      var agg := byCategory[category];
      var contribution := agg.bestWeighted * RepetitionFactor(curve, agg.count);
      assert contribution == weight(category);
      evidence := evidence + contribution;
      bestByCategory := bestByCategory[category := agg.bestConfidence];
      rest := rest - {category};
    }
  }

  lemma EmptySum(f: string -> real)
    ensures Sum({}, f) == 0.0
  {
  }

  method Assess(curve: Curve, input: Input) returns (a: Assessment)
    ensures a == Assessed(curve, input)
  {
    hide Best, Count, RepetitionFactor, Evidence, Confidence;
    var fs := input.findings;
    if fs == [] {
      NoFindings();
      return Assessment(0, INFORMATIONAL, 0.0, 0);
    }
    var byCategory := ByCategory(fs);
    var evidence, bestByCategory := SumEvidence(curve, byCategory, fs);
    var categories := |byCategory|;
    assert |byCategory| == |byCategory.Keys| == |Categories(fs)|;
    var factor := 1.0 + CATEGORY_BOOST * (categories - 1) as real;
    if input.touchesCritical {
      factor := factor + CRITICAL_ASSET_BOOST;
    }
    assert factor == Factor(categories, input.touchesCritical);
    var raw := evidence * factor + BLAST_WEIGHT * ClampInt(input.blastScore, 0, 100) as real;
    assert raw == Raw(curve, input);
    var score := ClampInt(Percent(curve, raw / SATURATION), 0, 100);
    var confidence := AggregateConfidence(bestByCategory, fs);
    a := Assessment(score, SeverityForScore(score), confidence, categories);
  }

  lemma NoFindings()
    ensures Confidence([]) == 0.0 && Categories([]) == {}
  {
  }

  method AggregateConfidence(bestByCategory: map<string, real>, ghost fs: seq<Finding>) returns (confidence: real)
    requires bestByCategory.Keys == Categories(fs)
    requires forall c :: c in bestByCategory ==> bestByCategory[c] == Best(fs, c, Belief)
    ensures confidence == Confidence(fs)
  {
    hide Best, Product;
    assert fs != [] ==> fs[0].category in Categories(fs);
    if bestByCategory == map[] {
      return 0.0;
    }
    var remaining := 1.0;
    var rest := bestByCategory.Keys;
    UnitTimes(Product(rest, Doubt(fs)));
    while rest != {}
      invariant rest <= bestByCategory.Keys
      invariant Times(remaining, Product(rest, Doubt(fs))) == Product(Categories(fs), Doubt(fs))
    {
      var category :| category in rest;
      ProductRemove(rest, Doubt(fs), category);
      var doubt := 1.0 - Clamp01(bestByCategory[category]);
      TimesAssociative(remaining, doubt, Product(rest - {category}, Doubt(fs)));
      remaining := remaining * doubt;
      rest := rest - {category};
    }
    EmptyProduct(Doubt(fs));
    UnitTimes(remaining);
    confidence := 1.0 - remaining;
    if confidence > MAX_CONFIDENCE {
      confidence := MAX_CONFIDENCE;
    }
    confidence := Round(confidence * 1000.0) as real / 1000.0;
  }

  lemma EmptyProduct(f: string -> real)
    ensures Product({}, f) == 1.0
  {
  }

  lemma UnitTimes(a: real)
    ensures Times(1.0, a) == a == Times(a, 1.0)
  {
  }

  lemma TimesAssociative(a: real, b: real, c: real)
    ensures Times(a, Times(b, c)) == Times(a * b, c)
  {
  }
}

/** What is promised of recomputing: an incident's figures depend on its findings and
    the graph alone, and a step on its inputs alone. */
module Determinism {
  import opened Events
  import opened Findings
  import opened GraphView
  import opened Incidents
  import opened Merging
  import opened Projector
  import opened Order
  import opened Reach
  import opened Scale
  import opened BlastSpec
  import opened Risk
  import opened RiskTheorems
  import opened Correlation
  import opened EngineRuns

  lemma SameIds(fs: seq<Finding>, gs: seq<Finding>)
    requires multiset(fs) == multiset(gs)
    ensures EntityIds(fs) == EntityIds(gs)
  {
    SameElements(fs, gs);
  }

  /** Two incidents with the same findings, in any order, derived on the same graph
      report the same score, severity, confidence and blast radius, whatever else
      sets them apart. */
  lemma ScoreIsPure(curve: Curve, g: View, a: IncidentVal, b: IncidentVal)
    requires Derived(curve, g, a) && Derived(curve, g, b)
    requires multiset(a.findings) == multiset(b.findings)
    ensures a.blastRadius == b.blastRadius
    ensures a.riskScore == b.riskScore && a.severity == b.severity && a.confidence == b.confidence
  {
    hide IsBlast, Assessed, KnownCritical, EntityIds;
    SameIds(a.findings, b.findings);
    BlastUnique(curve, g, EntityIds(a.findings), DEFAULT_MAX_HOPS, a.blastRadius, b.blastRadius);
    var critical := KnownCritical(g, EntityIds(a.findings)) || a.blastRadius.criticalAssets > 0;
    OrderFree(curve, Input(a.findings, a.blastRadius.score, critical), Input(b.findings, b.blastRadius.score, critical));
  }

  lemma SortedOnce(before: seq<Finding>, a: seq<Finding>, b: seq<Finding>)
    requires RulesDistinct(before) && Sorted(before, a) && Sorted(before, b)
    ensures a == b
  {
    SortedKeepsRules(before, a);
    SortedKeepsRules(before, b);
    StrTotal();
    forall x, y | RuleLess(x, y) ensures !RuleLess(y, x) {
      LexTrichotomy(CharLess, x.ruleID, y.ruleID);
    }
    SortedUnique(RuleLess, a, b);
  }

  lemma AppendedOnce(before: seq<Evidence>, ev: SecurityEvent, a: seq<Evidence>, b: seq<Evidence>, accepted: set<string>)
    requires EvidenceOK(before, accepted) && ev.id in accepted
    requires EvidenceAppended(before, ev, a) && EvidenceAppended(before, ev, b)
    ensures a == b
  {
    AppendedOK(before, ev, a, accepted);
    AppendedOK(before, ev, b, accepted);
    forall x, y | EvidenceLess(x, y) ensures !EvidenceLess(y, x) {
      LexTrichotomy(CharLess, x.eventID, y.eventID);
    }
    if !(exists e :: e in before && e.eventID == ev.id) && |before| < MAX_INCIDENT_EVIDENCE {
      SameElements(a, before + [Cited(ev)]);
      SameElements(b, before + [Cited(ev)]);
      SortedUnique(EvidenceLess, a, b);
    }
  }

  /** Recomputing has one outcome. */
  lemma RecomputedOnce(accepted: set<string>, curve: Curve, g: View, base: IncidentVal, ev: SecurityEvent, a: IncidentVal, b: IncidentVal)
    requires RulesDistinct(base.findings) && EvidenceOK(base.evidence, accepted) && ev.id in accepted
    requires Recomputed(curve, g, base, ev, a) && Recomputed(curve, g, base, ev, b)
    ensures a == b
  {
    hide Derived, Sorted, EvidenceAppended, EvidenceOK, RulesDistinct;
    SortedOnce(base.findings, a.findings, b.findings);
    AppendedOnce(base.evidence, ev, a.evidence, b.evidence, accepted);
    ScoreIsPure(curve, g, a, b);
  }

  /** The same step but for what the engine is said to have built. */
  predicate SameInput(s: Step, t: Step) {
    s == t || (s.Correlated? && t.Correlated? && s.ev == t.ev && s.c == t.c)
  }

  lemma BuiltFrom(cfg: Config, w: World, s: Step, w': World)
    requires s.Correlated? && Takes(cfg, w, s, w')
    ensures Admitted(s.ev) && FreshID(w.held, s.c) && s.ev.id in w'.accepted
    ensures w'.graph == Projected(w.graph, s.ev) && w'.accepted == w.accepted + {s.ev.id}
    ensures var e := Evaluate(cfg.rules, w.hits, s.ev);
      && w'.hits == e.hits
      && (e.findings != [] ==>
            Recomputed(cfg.curve, w'.graph, Accumulated(BaseOf(cfg, w, s), s.ev, e.findings, s.c.now), s.ev, s.inc))
      && (e.findings == [] || s.c.saveFails || s.inc.id == "" ==> w'.open == w.open && w'.held == w.held)
      && (e.findings != [] && !s.c.saveFails && s.inc.id != "" ==>
            && w'.open == w.open[SubjectKey(s.ev) := SubjectState(s.inc.id, s.ev.timestamp)]
            && w'.held == w.held[s.inc.id := s.inc])
  {
    hide Recomputed, Accumulated, Evaluate, Base, Projected;
  }

  /** From a reachable world, a step on given inputs has one outcome: the same
      world, and the same incident whenever one is built. */
  lemma TakesOnce(cfg: Config, w: World, s: Step, w1: World, t: Step, w2: World)
    requires Inv(cfg, w) && SameInput(s, t) && Takes(cfg, w, s, w1) && Takes(cfg, w, t, w2)
    ensures w1 == w2
    ensures s.Correlated? && Evaluate(cfg.rules, w.hits, s.ev).findings != [] ==> s.inc == t.inc
  {
    if s.Correlated? {
      hide Inv, Takes, Recomputed, Accumulated, Evaluate, BaseOf, Projected;
      BuiltFrom(cfg, w, s, w1);
      BuiltFrom(cfg, w, t, w2);
      SameBase(cfg, w, s, t);
      if Evaluate(cfg.rules, w.hits, s.ev).findings != [] {
        AccumulatedParts(cfg, w, s, w1);
        RecomputedOnce(w1.accepted, cfg.curve, w1.graph,
          Accumulated(BaseOf(cfg, w, s), s.ev, Evaluate(cfg.rules, w.hits, s.ev).findings, s.c.now), s.ev, s.inc, t.inc);
      }
    } else {
      hide ApplyAll, Projected, Evaluate, Inv;
    }
  }

  lemma SameBase(cfg: Config, w: World, s: Step, t: Step)
    requires s.Correlated? && t.Correlated? && s.ev == t.ev && s.c == t.c
    ensures BaseOf(cfg, w, s) == BaseOf(cfg, w, t)
  {
  }

  lemma AccumulatedParts(cfg: Config, w: World, s: Step, w': World)
    requires Inv(cfg, w) && s.Correlated? && Takes(cfg, w, s, w')
    ensures var acc := Accumulated(BaseOf(cfg, w, s), s.ev, Evaluate(cfg.rules, w.hits, s.ev).findings, s.c.now);
      RulesDistinct(acc.findings) && EvidenceOK(acc.evidence, w'.accepted)
  {
    hide Inv, Takes, Evaluate, BaseOf, Projected, BaseOK, Recomputed, RulesDistinct, EvidenceOK, MergedAll, Accumulates, AllOK;
    BuiltFrom(cfg, w, s, w');
    EventGrows(cfg, w, s.ev);
    var m := w.(graph := w'.graph, accepted := w'.accepted);
    BaseKnown(cfg, m, s);
    SameBaseOf(cfg, w, m, s);
    FoundAbout(cfg.rules, w.hits, s.ev);
    var b, news := BaseOf(cfg, w, s), Evaluate(cfg.rules, w.hits, s.ev).findings;
    AccumulatedFindings(w'.accepted, b, s.ev, news, s.c.now);
    BaseParts(w'.accepted, b, s.ev);
  }

  lemma SameBaseOf(cfg: Config, w: World, m: World, s: Step)
    requires s.Correlated? && m.open == w.open && m.held == w.held
    ensures BaseOf(cfg, m, s) == BaseOf(cfg, w, s)
  {
  }
}

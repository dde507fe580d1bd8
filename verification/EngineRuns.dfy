/** Whole runs of the detection pipeline. The flagship property composes graph
    growth, blast radius, risk scoring and correlation: along any run, an incident
    never looks less serious than it did. */
module EngineRuns {
  import opened Events
  import opened Findings
  import opened Incidents
  import opened Merging
  import opened Order
  import opened Scale
  import opened GraphView
  import opened Reach
  import opened BlastSpec
  import opened Risk
  import opened RiskTheorems
  import opened Projector
  import opened Correlation
  import Entity

  datatype Config = Config(rules: seq<Rule>, window: int, curve: Curve)

  datatype World = World(graph: View, open: Open, hits: Hits, held: Held, accepted: set<string>)

  const START := World(EMPTY, map[], map[], map[], {})

  datatype Step =
    // Any other writer of the graph, such as an inventory load.
    | Upserted(us: seq<Upsert>)
    // An event stored and projected while correlation was down, or failed once
    // `ran` rules had run.
    | Recorded(ev: SecurityEvent, ran: nat)
    // An event stored, projected and correlated; `inc` is what the engine built.
    | Correlated(ev: SecurityEvent, c: Circumstances, inc: IncidentVal)
    // Any other writer of the incident store moving an incident through its
    // lifecycle, closing it included.
    | Restated(id: string, status: string)

  /** What normalization and storage let through. */
  predicate Admitted(ev: SecurityEvent) {
    ev.id != "" && ev.timestamp != ZERO_TIME
  }

  predicate FreshID(held: Held, c: Circumstances) {
    c.newID != "" && c.newID !in held
  }

  ghost predicate Takes(cfg: Config, w: World, s: Step, w': World) {
    match s
    case Upserted(us) => w' == w.(graph := ApplyAll(w.graph, us))
    case Recorded(ev, ran) =>
      && Admitted(ev) && ran <= |cfg.rules|
      && w' == w.(graph := Projected(w.graph, ev), accepted := w.accepted + {ev.id},
                  hits := Evaluate(cfg.rules[..ran], w.hits, ev).hits)
    case Correlated(ev, c, inc) =>
      && Admitted(ev) && FreshID(w.held, c)
      && w'.graph == Projected(w.graph, ev) && w'.accepted == w.accepted + {ev.id}
      && ProcessStep(cfg.rules, cfg.window, cfg.curve, w'.graph, ev, c, w.open, w.hits, w.held, inc, w'.open, w'.hits, w'.held)
    case Restated(id, status) =>
      id in w.held && w' == w.(held := w.held[id := w.held[id].(status := status)])
  }

  // -------------------------------------------------------------------------
  // What every reachable world satisfies
  // -------------------------------------------------------------------------

  /** The score inputs the findings would give on this graph. */
  ghost function ScoredOn(curve: Curve, g: View, fs: seq<Finding>): Input {
    var ids := EntityIds(fs);
    Input(fs, BlastScore(curve, g, ids, DEFAULT_MAX_HOPS),
          KnownCritical(g, ids) || |CriticalReach(g, ids, DEFAULT_MAX_HOPS)| > 0)
  }

  /** The saved figures never exceed what the findings give on the current graph. */
  ghost predicate Bounded(curve: Curve, g: View, inc: IncidentVal) {
    && inc.riskScore <= Score(curve, ScoredOn(curve, g, inc.findings))
    && inc.severity == SeverityForScore(inc.riskScore)
    && inc.confidence == Confidence(inc.findings)
    && inc.blastRadius.score <= BlastScore(curve, g, EntityIds(inc.findings), DEFAULT_MAX_HOPS)
    && inc.blastRadius.criticalAssets <= |CriticalReach(g, EntityIds(inc.findings), DEFAULT_MAX_HOPS)|
  }

  ghost predicate EvidenceOK(es: seq<Evidence>, accepted: set<string>) {
    && Ascending(EvidenceLess, es) && |es| <= MAX_INCIDENT_EVIDENCE
    && (forall i, j :: 0 <= i < j < |es| ==> es[i].eventID != es[j].eventID)
    && (forall e :: e in es ==> e.eventID in accepted)
  }

  /** Structure: one finding per rule, in rule order, within the incident's span,
      citing only stored events. */
  ghost predicate Structured(accepted: set<string>, inc: IncidentVal) {
    && inc.id != "" && inc.firstSeen != ZERO_TIME && inc.firstSeen <= inc.lastSeen
    && RulesDistinct(inc.findings) && Ascending(RuleLess, inc.findings)
    && AllOK(inc.findings, inc.firstSeen, inc.lastSeen, accepted)
    && EvidenceOK(inc.evidence, accepted)
  }

  /** Each subject's open incident is its own, and every incident's subject has one. */
  ghost predicate Routed(open: Open, held: Held) {
    && (forall s :: s in open ==> open[s].incidentID in held && held[open[s].incidentID].primaryIdentity == s)
    && (forall id :: id in held ==> held[id].id == id && held[id].primaryIdentity in open)
  }

  ghost predicate Inv(cfg: Config, w: World) {
    && Routed(w.open, w.held)
    && (forall id :: id in w.held ==> Structured(w.accepted, w.held[id]) && Bounded(cfg.curve, w.graph, w.held[id]))
  }

  /** A later version of the same incident, nowhere less serious. */
  ghost predicate NotLower(a: IncidentVal, b: IncidentVal) {
    && a.id == b.id && a.primaryIdentity == b.primaryIdentity
    && a.riskScore <= b.riskScore
    && a.confidence <= b.confidence
    && SeverityRank(a.severity) <= SeverityRank(b.severity)
    && a.blastRadius.score <= b.blastRadius.score
    && a.blastRadius.criticalAssets <= b.blastRadius.criticalAssets
    && Accumulates(a.findings, b.findings)
    && b.firstSeen <= a.firstSeen && a.lastSeen <= b.lastSeen
    && (forall e :: e in a.evidence ==> e in b.evidence)
  }

  // -------------------------------------------------------------------------
  // Graph growth
  // -------------------------------------------------------------------------

  lemma KnownCriticalGrows(g: View, ids: set<string>, g': View, ids': set<string>)
    requires Grows(g, g') && ids <= ids' && KnownCritical(g, ids)
    ensures KnownCritical(g', ids')
  {
    var id :| id in ids && id in g.entities && g.entities[id].criticality == Entity.CRITICAL;
    Entity.RankGovernsWeight(g.entities[id].criticality, g'.entities[id].criticality);
  }

  /** The heart of the matter: more graph and more findings never score lower. */
  lemma ScoredOnGrows(curve: Curve, g: View, fs: seq<Finding>, g': View, gs: seq<Finding>)
    requires Grows(g, g') && RulesDistinct(fs) && Accumulates(fs, gs)
    ensures Score(curve, ScoredOn(curve, g, fs)) <= Score(curve, ScoredOn(curve, g', gs))
    ensures Confidence(fs) <= Confidence(gs)
    ensures BlastScore(curve, g, EntityIds(fs), DEFAULT_MAX_HOPS) <= BlastScore(curve, g', EntityIds(gs), DEFAULT_MAX_HOPS)
    ensures |CriticalReach(g, EntityIds(fs), DEFAULT_MAX_HOPS)| <= |CriticalReach(g', EntityIds(gs), DEFAULT_MAX_HOPS)|
  {
    hide Score, Confidence, BlastScore, CriticalReach, Grows, KnownCritical, Covers, Accumulates, EntityIds;
    var ids, ids' := EntityIds(fs), EntityIds(gs);
    EntityIdsGrow(fs, gs);
    BlastRadiusMonotone(curve, g, ids, g', ids', DEFAULT_MAX_HOPS);
    if KnownCritical(g, ids) {
      KnownCriticalGrows(g, ids, g', ids');
    }
    var emb := AccumulatesCovers(fs, gs);
    ScoreMonotone(curve, ScoredOn(curve, g, fs), ScoredOn(curve, g', gs), emb);
    ConfidenceMonotone(fs, gs, emb);
  }

  lemma AccumulatesSelf(fs: seq<Finding>)
    ensures Accumulates(fs, fs)
  {
    forall f | f in fs ensures exists g :: g in fs && SameRule(f, g) {
      assert SameRule(f, f);
    }
  }

  lemma BoundedGrows(curve: Curve, g: View, g': View, inc: IncidentVal)
    requires Bounded(curve, g, inc) && Grows(g, g') && RulesDistinct(inc.findings)
    ensures Bounded(curve, g', inc)
  {
    AccumulatesSelf(inc.findings);
    hide Score, Confidence, BlastScore, CriticalReach, Grows, KnownCritical, Accumulates, ScoredOn;
    ScoredOnGrows(curve, g, inc.findings, g', inc.findings);
  }

  lemma StructuredGrows(accepted: set<string>, more: set<string>, inc: IncidentVal)
    requires Structured(accepted, inc) && accepted <= more
    ensures Structured(more, inc)
  {
  }

  /** Growing the graph and the event log disturbs nothing already saved. */
  lemma InvGrows(cfg: Config, w: World, g': View, more: set<string>)
    requires Inv(cfg, w) && Grows(w.graph, g') && w.accepted <= more
    ensures Inv(cfg, w.(graph := g', accepted := more))
  {
    hide Bounded, Structured, Grows;
    forall id | id in w.held
      ensures Structured(more, w.held[id]) && Bounded(cfg.curve, g', w.held[id])
    {
      StructuredGrows(w.accepted, more, w.held[id]);
      RulesOf(w.accepted, w.held[id]);
      BoundedGrows(cfg.curve, w.graph, g', w.held[id]);
    }
  }

  lemma RulesOf(accepted: set<string>, inc: IncidentVal)
    requires Structured(accepted, inc)
    ensures RulesDistinct(inc.findings)
  {
  }

  // -------------------------------------------------------------------------
  // One correlated event
  // -------------------------------------------------------------------------

  /** Every finding an event gives rise to is about that event. */
  lemma {:induction false} FoundAbout(rules: seq<Rule>, hits: Hits, ev: SecurityEvent)
    ensures forall f :: f in Evaluate(rules, hits, ev).findings ==>
      f.eventIDs == [ev.id] && f.firstSeen == f.lastSeen == ev.timestamp
  {
    if rules != [] {
      FoundAbout(rules[..|rules| - 1], hits, ev);
    }
  }

  lemma SortedKeepsRules(before: seq<Finding>, after: seq<Finding>)
    requires Sorted(before, after) && RulesDistinct(before)
    ensures RulesDistinct(after) && Ascending(RuleLess, after)
    ensures forall f :: f in after <==> f in before
  {
    SameElements(before, after);
    DistinctPermutation(before, after);
    forall i, j | 0 <= i < j < |after| ensures after[i].ruleID != after[j].ruleID && RuleLess(after[i], after[j]) {
      assert after[i] in before && after[j] in before && after[i] != after[j];
      LexTrichotomy(CharLess, after[i].ruleID, after[j].ruleID);
    }
  }

  lemma AppendedOK(before: seq<Evidence>, ev: SecurityEvent, after: seq<Evidence>, accepted: set<string>)
    requires EvidenceOK(before, accepted) && EvidenceAppended(before, ev, after) && ev.id in accepted
    ensures EvidenceOK(after, accepted)
    ensures forall e :: e in before ==> e in after
  {
    if after != before {
      var all := before + [Cited(ev)];
      assert forall e :: e in before ==> e.eventID != ev.id;
      SameElements(all, after);
      assert forall i :: 0 <= i < |before| ==> before[i] in before;
      assert Distinct(all);
      DistinctPermutation(all, after);
      forall i, j | 0 <= i < j < |after|
        ensures after[i].eventID != after[j].eventID && EvidenceLess(after[i], after[j])
      {
        assert after[i] in all && after[j] in all && after[i] != after[j];
        LexTrichotomy(CharLess, after[i].eventID, after[j].eventID);
      }
      assert forall e :: e in before ==> e in all;
    }
  }

  /** What one event makes of a base incident. */
  ghost predicate BaseOK(accepted: set<string>, base: IncidentVal, ev: SecurityEvent) {
    Structured(accepted, base) || exists c :: base == Opened(ev, c) && c.newID != ""
  }

  /** Everything `Structured` says except about the two lists. */
  lemma BaseParts(accepted: set<string>, base: IncidentVal, ev: SecurityEvent)
    requires BaseOK(accepted, base, ev)
    ensures base.id != "" && RulesDistinct(base.findings) && EvidenceOK(base.evidence, accepted)
    ensures base.findings != [] ==> Structured(accepted, base)
    ensures base.firstSeen == ZERO_TIME ==> base.findings == []
    ensures base.lastSeen >= base.firstSeen || base == Opened(ev, Circumstances(base.id, 0, false, false))
  {
  }

  lemma WiderOK(fs: seq<Finding>, first: int, last: int, accepted: set<string>, first': int, last': int)
    requires AllOK(fs, first, last, accepted) && first' <= first && last <= last'
    ensures AllOK(fs, first', last', accepted)
  {
    hide Distinct;
    forall f | f in fs ensures FindingOK(f, first', last', accepted) {
      assert FindingOK(f, first, last, accepted);
    }
  }

  lemma NewsOK(news: seq<Finding>, ev: SecurityEvent, first: int, last: int, accepted: set<string>)
    requires forall f :: f in news ==> f.eventIDs == [ev.id] && f.firstSeen == f.lastSeen == ev.timestamp
    requires ev.id in accepted && first <= ev.timestamp <= last
    ensures AllOK(news, first, last, accepted)
  {
  }

  /** The findings of the accumulated incident are in order and within its span. */
  lemma AccumulatedFindings(accepted: set<string>, base: IncidentVal, ev: SecurityEvent, news: seq<Finding>, now: int)
    requires Admitted(ev) && ev.id in accepted && BaseOK(accepted, base, ev)
    requires forall f :: f in news ==> f.eventIDs == [ev.id] && f.firstSeen == f.lastSeen == ev.timestamp
    ensures var acc := Accumulated(base, ev, news, now);
      && acc.id != "" && acc.firstSeen != ZERO_TIME && acc.firstSeen <= acc.lastSeen
      && acc.firstSeen <= base.firstSeen && base.lastSeen <= acc.lastSeen
      && RulesDistinct(acc.findings) && Accumulates(base.findings, acc.findings)
      && AllOK(acc.findings, acc.firstSeen, acc.lastSeen, accepted)
  {
    hide RulesDistinct, Accumulates, FindingOK, EvidenceOK, MergedAll, Ascending;
    var acc := Accumulated(base, ev, news, now);
    BaseParts(accepted, base, ev);
    if Structured(accepted, base) {
      WiderOK(base.findings, base.firstSeen, base.lastSeen, accepted, acc.firstSeen, acc.lastSeen);
    }
    NewsOK(news, ev, acc.firstSeen, acc.lastSeen, accepted);
    MergedAllOK(base.findings, news, acc.firstSeen, acc.lastSeen, accepted);
    MergedAllKeeps(base.findings, news);
  }

  /** Sorting changes neither what accumulated nor what is within bounds. */
  lemma SortedKeeps(base: seq<Finding>, before: seq<Finding>, after: seq<Finding>, first: int, last: int, accepted: set<string>)
    requires Sorted(before, after) && RulesDistinct(before)
    requires Accumulates(base, before) && AllOK(before, first, last, accepted)
    ensures RulesDistinct(after) && Ascending(RuleLess, after)
    ensures Accumulates(base, after) && AllOK(after, first, last, accepted)
  {
    SortedKeepsRules(before, after);
    hide SameRule, FindingOK, RulesDistinct, Ascending, Sorted;
    forall f | f in base ensures exists g :: g in after && SameRule(f, g) {
      var g :| g in before && SameRule(f, g);
      assert g in after;
    }
  }

  lemma AccumulatedStructured(accepted: set<string>, base: IncidentVal, ev: SecurityEvent, news: seq<Finding>,
                              now: int, g: View, curve: Curve, inc: IncidentVal)
    requires Admitted(ev) && ev.id in accepted && BaseOK(accepted, base, ev)
    requires forall f :: f in news ==> f.eventIDs == [ev.id] && f.firstSeen == f.lastSeen == ev.timestamp
    requires Recomputed(curve, g, Accumulated(base, ev, news, now), ev, inc)
    ensures Structured(accepted, inc)
    ensures Accumulates(base.findings, inc.findings)
    ensures forall e :: e in base.evidence ==> e in inc.evidence
    ensures inc.firstSeen <= base.firstSeen && base.lastSeen <= inc.lastSeen
  {
    var acc := Accumulated(base, ev, news, now);
    AccumulatedFindings(accepted, base, ev, news, now);
    BaseParts(accepted, base, ev);
    hide RulesDistinct, Accumulates, AllOK, EvidenceOK, MergedAll, Ascending, Sorted, Derived, EvidenceAppended, BaseOK, Admitted;
    SortedKeeps(base.findings, acc.findings, inc.findings, acc.firstSeen, acc.lastSeen, accepted);
    AppendedOK(base.evidence, ev, inc.evidence, accepted);
  }

  /** A freshly derived incident is exactly at its bound. */
  lemma DerivedBounded(curve: Curve, g: View, inc: IncidentVal)
    requires Derived(curve, g, inc)
    ensures Bounded(curve, g, inc)
    ensures inc.riskScore == Score(curve, ScoredOn(curve, g, inc.findings))
    ensures inc.blastRadius.score == BlastScore(curve, g, EntityIds(inc.findings), DEFAULT_MAX_HOPS)
    ensures inc.blastRadius.criticalAssets == |CriticalReach(g, EntityIds(inc.findings), DEFAULT_MAX_HOPS)|
  {
    hide Score, Confidence, BlastScore, CriticalReach, KnownCritical, Ascending, Listed, IDs, EntityIds;
  }

  /** The step that matters: an incident rebuilt on a graph that includes the event
      is nowhere below the version it was built from. */
  lemma RebuiltNotLower(curve: Curve, g: View, base: IncidentVal, inc: IncidentVal)
    requires Bounded(curve, g, base) && RulesDistinct(base.findings)
    requires Derived(curve, g, inc) && Accumulates(base.findings, inc.findings)
    ensures inc.riskScore >= base.riskScore && inc.confidence >= base.confidence
    ensures SeverityRank(inc.severity) >= SeverityRank(base.severity)
    ensures inc.blastRadius.score >= base.blastRadius.score
    ensures inc.blastRadius.criticalAssets >= base.blastRadius.criticalAssets
  {
    DerivedBounded(curve, g, inc);
    GrowsSelf(g);
    hide Derived, Score, Confidence, BlastScore, CriticalReach, ScoredOn, SeverityForScore, Accumulates, Grows;
    ScoredOnGrows(curve, g, base.findings, g, inc.findings);
    SeverityFollowsScore(base.riskScore, inc.riskScore);
  }

  lemma GrowsSelf(g: View)
    ensures Grows(g, g)
  {
  }

  lemma NotLowerSelf(a: IncidentVal, b: IncidentVal)
    requires b == a.(status := b.status)
    ensures NotLower(a, b)
  {
    AccumulatesSelf(a.findings);
  }

  lemma NotLowerTransitive(a: IncidentVal, b: IncidentVal, c: IncidentVal)
    requires NotLower(a, b) && NotLower(b, c)
    ensures NotLower(a, c)
  {
    AccumulatesTransitive(a.findings, b.findings, c.findings);
    hide Accumulates;
  }

  /** Nothing held is lost, and nothing held looks less serious. */
  ghost predicate HeldNotLower(held: Held, held': Held) {
    forall id :: id in held ==> id in held' && NotLower(held[id], held'[id])
  }

  lemma HeldNotLowerSelf(held: Held)
    ensures HeldNotLower(held, held)
  {
    forall id | id in held ensures NotLower(held[id], held[id]) {
      NotLowerSelf(held[id], held[id]);
    }
  }

  /** Whether the engine saved what it built from an event. */
  predicate Saves(cfg: Config, w: World, s: Step) {
    && s.Correlated? && Evaluate(cfg.rules, w.hits, s.ev).findings != []
    && !s.c.saveFails && s.inc.id != ""
  }

  /** The incident an event was folded into. */
  function BaseOf(cfg: Config, w: World, s: Step): IncidentVal
    requires s.Correlated?
  {
    Base(w.open, w.held, cfg.window, s.ev, s.c)
  }

  lemma BaseIsHeldOrNew(cfg: Config, w: World, s: Step, w': World)
    requires Inv(cfg, w) && s.Correlated? && Takes(cfg, w, s, w')
    ensures var b := BaseOf(cfg, w, s);
      if b.id in w.held
      then b == w.held[b.id] && SubjectKey(s.ev) in w.open && w.open[SubjectKey(s.ev)].incidentID == b.id
           && s.ev.timestamp - w.open[SubjectKey(s.ev)].lastSeen <= cfg.window && !s.c.getFails && b.status != CLOSED
      else b == Opened(s.ev, s.c)
    ensures BaseOf(cfg, w, s).primaryIdentity == SubjectKey(s.ev)
  {
    hide Structured, Bounded, ProcessStep;
  }

  /** What a saving step does to the world. */
  lemma SavedWorld(cfg: Config, w: World, s: Step, w': World)
    requires Inv(cfg, w) && s.Correlated? && Takes(cfg, w, s, w')
    ensures if Saves(cfg, w, s)
      then s.inc.id == BaseOf(cfg, w, s).id && s.inc.primaryIdentity == SubjectKey(s.ev)
           && w'.open == w.open[SubjectKey(s.ev) := SubjectState(s.inc.id, s.ev.timestamp)]
           && w'.held == w.held[s.inc.id := s.inc]
      else w'.open == w.open && w'.held == w.held
  {
    BaseIsHeldOrNew(cfg, w, s, w');
    hide Inv, Base, Sorted, Derived, EvidenceAppended, MergedAll;
  }

  /** What the engine built is in order, at its bound, and not below its base. */
  lemma BuiltWell(cfg: Config, w: World, s: Step, w': World)
    requires Inv(cfg, w.(graph := w'.graph, accepted := w'.accepted))
    requires s.Correlated? && Takes(cfg, w, s, w') && Saves(cfg, w, s)
    ensures Structured(w'.accepted, s.inc) && Bounded(cfg.curve, w'.graph, s.inc)
    ensures s.inc.id in w.held ==> NotLower(w.held[s.inc.id], s.inc)
  {
    hide Inv, Takes, Saves, Base, Evaluate, Structured, Bounded, Recomputed, Accumulates, BaseOK, Accumulated, RulesDistinct, Derived;
    var m := w.(graph := w'.graph, accepted := w'.accepted);
    var b, news := BaseOf(cfg, w, s), Evaluate(cfg.rules, w.hits, s.ev).findings;
    SavedAs(cfg, w, s, w');
    BaseKnown(cfg, m, s);
    FoundAbout(cfg.rules, w.hits, s.ev);
    AccumulatedStructured(w'.accepted, b, s.ev, news, s.c.now, w'.graph, cfg.curve, s.inc);
    DerivedOf(cfg.curve, w'.graph, b, s.ev, news, s.c.now, s.inc);
    DerivedBounded(cfg.curve, w'.graph, s.inc);
    if s.inc.id in w.held {
      RebuiltNotLower(cfg.curve, w'.graph, b, s.inc);
    }
  }

  lemma SavedAs(cfg: Config, w: World, s: Step, w': World)
    requires s.Correlated? && Takes(cfg, w, s, w') && Saves(cfg, w, s)
    ensures Admitted(s.ev) && s.ev.id in w'.accepted
    ensures Recomputed(cfg.curve, w'.graph, Accumulated(BaseOf(cfg, w, s), s.ev,
                       Evaluate(cfg.rules, w.hits, s.ev).findings, s.c.now), s.ev, s.inc)
    ensures s.inc.id == BaseOf(cfg, w, s).id && s.c.newID != "" && s.c.newID !in w.held
  {
    hide Base, Evaluate, Sorted, Derived, EvidenceAppended, MergedAll;
  }

  lemma BaseKnown(cfg: Config, m: World, s: Step)
    requires Inv(cfg, m) && s.Correlated? && s.c.newID != "" && s.c.newID !in m.held
    ensures BaseOK(m.accepted, BaseOf(cfg, m, s), s.ev)
    ensures var b := BaseOf(cfg, m, s); b.id in m.held ==> b == m.held[b.id] && RulesDistinct(b.findings) && Bounded(cfg.curve, m.graph, b)
    ensures BaseOf(cfg, m, s).primaryIdentity == SubjectKey(s.ev)
  {
    hide Bounded, AllOK, EvidenceOK, Ascending;
  }

  lemma DerivedOf(curve: Curve, g: View, b: IncidentVal, ev: SecurityEvent, news: seq<Finding>, now: int, inc: IncidentVal)
    requires Recomputed(curve, g, Accumulated(b, ev, news, now), ev, inc)
    ensures Derived(curve, g, inc) && inc.id == b.id && inc.primaryIdentity == b.primaryIdentity
  {
    hide Derived, Sorted, EvidenceAppended, MergedAll;
  }

  /** Grown by one event, before the engine looks at it. */
  lemma EventGrows(cfg: Config, w: World, ev: SecurityEvent)
    requires Inv(cfg, w)
    ensures Inv(cfg, w.(graph := Projected(w.graph, ev), accepted := w.accepted + {ev.id}))
  {
    ProjectionProgress(w.graph, ev);
    hide Inv, Grows, Projected, EntityIDsForEvent;
    InvGrows(cfg, w, Projected(w.graph, ev), w.accepted + {ev.id});
  }

  /** Saving a sound incident, new or rebuilt from its subject's open one. */
  lemma FiledKeeps(cfg: Config, w: World, inc: IncidentVal, at: int, w': World)
    requires Inv(cfg, w) && Structured(w.accepted, inc) && Bounded(cfg.curve, w.graph, inc)
    requires inc.id in w.held ==>
      && NotLower(w.held[inc.id], inc)
      && inc.primaryIdentity in w.open && w.open[inc.primaryIdentity].incidentID == inc.id
    requires w'.graph == w.graph && w'.accepted == w.accepted
    requires w'.open == w.open[inc.primaryIdentity := SubjectState(inc.id, at)] && w'.held == w.held[inc.id := inc]
    ensures Inv(cfg, w') && HeldNotLower(w.held, w'.held)
  {
    hide Structured, Bounded, NotLower;
    forall id | id in w.held ensures NotLower(w.held[id], w'.held[id]) {
      NotLowerSelf(w.held[id], w.held[id]);
    }
  }

  lemma HitsDoNotMatter(cfg: Config, w: World, w': World)
    requires Inv(cfg, w) && w' == w.(hits := w'.hits)
    ensures Inv(cfg, w')
  {
    hide Structured, Bounded, Routed;
  }

  lemma Grown(cfg: Config, w: World, s: Step, w': World)
    requires s.Correlated? && Takes(cfg, w, s, w')
    ensures w'.graph == Projected(w.graph, s.ev) && w'.accepted == w.accepted + {s.ev.id}
  {
    hide ProcessStep, Projected;
  }

  lemma CorrelatedKeeps(cfg: Config, w: World, s: Step, w': World)
    requires Inv(cfg, w) && s.Correlated? && Takes(cfg, w, s, w')
    ensures Inv(cfg, w') && HeldNotLower(w.held, w'.held)
  {
    hide Inv, Takes, Structured, Bounded, NotLower, Saves, BaseOf, Projected, HeldNotLower;
    Grown(cfg, w, s, w');
    EventGrows(cfg, w, s.ev);
    SavedWorld(cfg, w, s, w');
    BaseIsHeldOrNew(cfg, w, s, w');
    var m := w.(graph := w'.graph, accepted := w'.accepted);
    if Saves(cfg, w, s) {
      BuiltWell(cfg, w, s, w');
      FiledKeeps(cfg, m, s.inc, s.ev.timestamp, w');
    } else {
      HeldNotLowerSelf(w.held);
      HitsDoNotMatter(cfg, m, w');
    }
  }

  /** Every other kind of step leaves routing alone, and incidents but for status. */
  lemma OtherSteps(cfg: Config, w: World, s: Step, w': World)
    requires !s.Correlated? && Takes(cfg, w, s, w')
    ensures w'.open == w.open && w'.held.Keys == w.held.Keys
    ensures forall id :: id in w.held ==> w'.held[id] == w.held[id].(status := w'.held[id].status)
    ensures !s.Restated? ==> w'.held == w.held
  {
    hide ApplyAll, Projected;
  }

  lemma RestatedKeeps(cfg: Config, w: World, s: Step, w': World)
    requires Inv(cfg, w) && s.Restated? && Takes(cfg, w, s, w')
    ensures Inv(cfg, w') && HeldNotLower(w.held, w'.held)
  {
    hide Structured, Bounded, NotLower;
    OtherSteps(cfg, w, s, w');
    forall id | id in w.held
      ensures NotLower(w.held[id], w'.held[id])
      ensures Structured(w'.accepted, w'.held[id]) && Bounded(cfg.curve, w'.graph, w'.held[id])
    {
      NotLowerSelf(w.held[id], w'.held[id]);
      StatusDoesNotMatter(cfg, w, w.held[id], w'.held[id]);
    }
  }

  lemma StatusDoesNotMatter(cfg: Config, w: World, a: IncidentVal, b: IncidentVal)
    requires b == a.(status := b.status)
    ensures Structured(w.accepted, a) ==> Structured(w.accepted, b)
    ensures Bounded(cfg.curve, w.graph, a) ==> Bounded(cfg.curve, w.graph, b)
  {
  }

  /** One step of any kind keeps every reachable-world property, and leaves every
      saved incident at least as serious as it was. */
  lemma StepKeeps(cfg: Config, w: World, s: Step, w': World)
    requires Inv(cfg, w) && Takes(cfg, w, s, w')
    ensures Inv(cfg, w') && HeldNotLower(w.held, w'.held)
  {
    match s
    case Upserted(us) =>
      RunGrows(w.graph, us);
      InvGrows(cfg, w, w'.graph, w.accepted);
      HeldNotLowerSelf(w.held);
    case Recorded(ev, ran) =>
      EventGrows(cfg, w, ev);
      HeldNotLowerSelf(w.held);
    case Correlated(_, _, _) => CorrelatedKeeps(cfg, w, s, w');
    case Restated(_, _) => RestatedKeeps(cfg, w, s, w');
  }

  // -------------------------------------------------------------------------
  // Whole runs
  // -------------------------------------------------------------------------

  ghost predicate Run(cfg: Config, ws: seq<World>, ss: seq<Step>) {
    && |ws| == |ss| + 1 && ws[0] == START
    && (forall i :: 0 <= i < |ss| ==> Takes(cfg, ws[i], ss[i], ws[i + 1]))
  }

  lemma StartsWell(cfg: Config)
    ensures Inv(cfg, START)
  {
  }

  /** Every incident of every reachable world is structured and bounded, and
      every subject's open incident is its own. */
  lemma {:induction false} ReachableWorlds(cfg: Config, ws: seq<World>, ss: seq<Step>, i: nat)
    requires Run(cfg, ws, ss) && i < |ws|
    ensures Inv(cfg, ws[i])
  {
    hide Takes, Inv;
    if i == 0 {
      StartsWell(cfg);
    } else {
      ReachableWorlds(cfg, ws, ss, i - 1);
      assert Takes(cfg, ws[i - 1], ss[i - 1], ws[i - 1 + 1]);
      StepKeeps(cfg, ws[i - 1], ss[i - 1], ws[i]);
    }
  }

  /** Along every run, whatever is interleaved and whichever saves fail, a later
      version of an incident is nowhere below an earlier one: not in risk score,
      confidence, severity, blast radius or critical assets. */
  lemma {:induction false} RiskNeverFalls(cfg: Config, ws: seq<World>, ss: seq<Step>, i: nat, j: nat, id: string)
    requires Run(cfg, ws, ss) && i <= j < |ws| && id in ws[i].held
    ensures id in ws[j].held && NotLower(ws[i].held[id], ws[j].held[id])
    decreases j - i
  {
    hide Takes, Inv, NotLower;
    if i == j {
      NotLowerSelf(ws[i].held[id], ws[i].held[id]);
    } else {
      RiskNeverFalls(cfg, ws, ss, i, j - 1, id);
      ReachableWorlds(cfg, ws, ss, j - 1);
      assert Takes(cfg, ws[j - 1], ss[j - 1], ws[j - 1 + 1]);
      StepKeeps(cfg, ws[j - 1], ss[j - 1], ws[j]);
      NotLowerTransitive(ws[i].held[id], ws[j - 1].held[id], ws[j].held[id]);
    }
  }

  // -------------------------------------------------------------------------
  // Which incident an event may change
  // -------------------------------------------------------------------------

  /** Held, but no longer the one its subject's events go to. */
  ghost predicate Superseded(w: World, id: string) {
    id in w.held && w.held[id].primaryIdentity in w.open && w.open[w.held[id].primaryIdentity].incidentID != id
  }

  lemma SupersededStep(cfg: Config, w: World, s: Step, w': World, id: string)
    requires Inv(cfg, w) && Takes(cfg, w, s, w') && Superseded(w, id)
    ensures Superseded(w', id) && w'.held[id] == w.held[id].(status := w'.held[id].status)
  {
    hide Inv, Takes, Saves, BaseOf;
    if s.Correlated? {
      SavedWorld(cfg, w, s, w');
      BaseIsHeldOrNew(cfg, w, s, w');
      SavedFresh(cfg, w, s, w');
    } else {
      OtherSteps(cfg, w, s, w');
    }
  }

  lemma SavedFresh(cfg: Config, w: World, s: Step, w': World)
    requires s.Correlated? && Takes(cfg, w, s, w')
    ensures Admitted(s.ev) && s.c.newID !in w.held
  {
  }

  /** Once its subject has moved on to another incident, an incident is final: no
      event changes it again, only its lifecycle status can move. */
  lemma {:induction false} SupersededIsFinal(cfg: Config, ws: seq<World>, ss: seq<Step>, i: nat, j: nat, id: string)
    requires Run(cfg, ws, ss) && i <= j < |ws| && Superseded(ws[i], id)
    ensures Superseded(ws[j], id) && ws[j].held[id] == ws[i].held[id].(status := ws[j].held[id].status)
    decreases j - i
  {
    hide Takes, Inv;
    if i < j {
      SupersededIsFinal(cfg, ws, ss, i, j - 1, id);
      ReachableWorlds(cfg, ws, ss, j - 1);
      assert Takes(cfg, ws[j - 1], ss[j - 1], ws[j - 1 + 1]);
      SupersededStep(cfg, ws[j - 1], ss[j - 1], ws[j], id);
    }
  }

  /** The step that last saved an incident for a subject, before step `i`. */
  ghost predicate LastSave(cfg: Config, ws: seq<World>, ss: seq<Step>, i: nat, subject: string, k: nat)
    requires |ws| == |ss| + 1 && i <= |ss|
  {
    && k < i && Saves(cfg, ws[k], ss[k]) && SubjectKey(ss[k].ev) == subject
    && (forall m :: k < m < i && Saves(cfg, ws[m], ss[m]) ==> SubjectKey(ss[m].ev) != subject)
  }

  /** The routing table is exactly the history of saves. */
  lemma {:induction false} RoutingIsHistory(cfg: Config, ws: seq<World>, ss: seq<Step>, i: nat, subject: string) returns (k: nat)
    requires Run(cfg, ws, ss) && i < |ws| && subject in ws[i].open
    ensures LastSave(cfg, ws, ss, i, subject, k)
    ensures ws[i].open[subject] == SubjectState(ss[k].inc.id, ss[k].ev.timestamp)
  {
    hide Takes, Inv, Saves;
    assert i > 0;
    var w, s := ws[i - 1], ss[i - 1];
    ReachableWorlds(cfg, ws, ss, i - 1);
    assert Takes(cfg, w, s, ws[i - 1 + 1]);
    RoutingStep(cfg, w, s, ws[i]);
    if Saves(cfg, w, s) && SubjectKey(s.ev) == subject {
      k := i - 1;
    } else {
      k := RoutingIsHistory(cfg, ws, ss, i - 1, subject);
    }
  }

  lemma RoutingStep(cfg: Config, w: World, s: Step, w': World)
    requires Inv(cfg, w) && Takes(cfg, w, s, w')
    ensures Saves(cfg, w, s) ==> s.Correlated?
    ensures w'.open == if Saves(cfg, w, s) then w.open[SubjectKey(s.ev) := SubjectState(s.inc.id, s.ev.timestamp)] else w.open
  {
    if s.Correlated? {
      hide Inv, Takes, BaseOf;
      SavedWorld(cfg, w, s, w');
    } else {
      OtherSteps(cfg, w, s, w');
    }
  }

  /** Whenever an event changes a saved incident, that incident is the one the
      subject's last save produced, the event came within the window of that save,
      the store answered, and the incident was not closed. */
  lemma AbsorbedWithinWindow(cfg: Config, ws: seq<World>, ss: seq<Step>, i: nat, id: string) returns (k: nat)
    requires Run(cfg, ws, ss) && i < |ss| && !ss[i].Restated?
    requires id in ws[i].held && id in ws[i + 1].held && ws[i + 1].held[id] != ws[i].held[id]
    ensures Saves(cfg, ws[i], ss[i]) && SubjectKey(ss[i].ev) == ws[i].held[id].primaryIdentity
    ensures LastSave(cfg, ws, ss, i, SubjectKey(ss[i].ev), k) && ss[k].inc.id == id
    ensures ss[i].ev.timestamp - ss[k].ev.timestamp <= cfg.window
    ensures !ss[i].c.getFails && ws[i].held[id].status != CLOSED
  {
    ReachableWorlds(cfg, ws, ss, i);
    assert Takes(cfg, ws[i], ss[i], ws[i + 1]);
    AbsorbingStep(cfg, ws[i], ss[i], ws[i + 1], id);
    hide Takes, Inv, Saves;
    k := RoutingIsHistory(cfg, ws, ss, i, SubjectKey(ss[i].ev));
  }

  lemma AbsorbingStep(cfg: Config, w: World, s: Step, w': World, id: string)
    requires Inv(cfg, w) && Takes(cfg, w, s, w') && !s.Restated?
    requires id in w.held && id in w'.held && w'.held[id] != w.held[id]
    ensures Saves(cfg, w, s) && SubjectKey(s.ev) == w.held[id].primaryIdentity
    ensures SubjectKey(s.ev) in w.open && w.open[SubjectKey(s.ev)].incidentID == id
    ensures s.ev.timestamp - w.open[SubjectKey(s.ev)].lastSeen <= cfg.window
    ensures !s.c.getFails && w.held[id].status != CLOSED
  {
    hide Inv, Takes, Saves, BaseOf;
    if !s.Correlated? {
      OtherSteps(cfg, w, s, w');
    } else {
      SavedWorld(cfg, w, s, w');
      BaseIsHeldOrNew(cfg, w, s, w');
      HeldIdentity(cfg, w, id);
    }
  }

  lemma HeldIdentity(cfg: Config, w: World, id: string)
    requires Inv(cfg, w) && id in w.held
    ensures w.held[id].id == id
  {
  }
}

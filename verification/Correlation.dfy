/** The correlation engine: rules over events, findings into incidents. The engine
    works on mutable incident records and its own maps; `ProcessStep` is what one
    call amounts to on values. */
module Correlation {
  import opened Events
  import opened Findings
  import opened Incidents
  import opened Merging
  import opened Order
  import opened Scale
  import opened GraphView
  import opened Reach
  import opened BlastRadii
  import opened BlastSpec
  import opened Risk
  import opened Projector
  import Entity
  import T = Threshold
  import G = Graph
  import opened Store

  const DEFAULT_WINDOW := 21_600_000_000_000  // six hours, in nanoseconds

  /** Matching is opaque: a rule is any predicate on events, with its annotations. */
  datatype Rule = Rule(id: string, category: string, severity: string, confidence: real,
                       matches: SecurityEvent -> bool, threshold: Option<T.Threshold>)

  datatype SubjectState = SubjectState(incidentID: string, lastSeen: int)

  type Hits = map<string, seq<int>>
  type Open = map<string, SubjectState>
  type Held = map<string, IncidentVal>

  /** What a call depends on besides its arguments: whether the store answers, the
      clock, and the identifier a new incident would be given. */
  datatype Circumstances = Circumstances(newID: string, now: int, getFails: bool, saveFails: bool)

  function SubjectKey(ev: SecurityEvent): string {
    if ActorKey(ev) != "" then ActorKey(ev) else "unattributed:" + ev.sourceType + ":" + ev.sourceName
  }

  function HitKey(subject: string, rule: Rule): string {
    subject + "|" + rule.id
  }

  function StoredHits(hits: Hits, key: string): seq<int> {
    if key in hits then hits[key] else []
  }

  // -------------------------------------------------------------------------
  // Evaluation
  // -------------------------------------------------------------------------

  datatype Evaluation = Evaluation(findings: seq<Finding>, hits: Hits)

  function Found(rule: Rule, ev: SecurityEvent): Finding {
    Finding(rule.id, rule.category, rule.severity, rule.confidence,
            EntityIDsForEvent(ev), [ev.id], ev.timestamp, ev.timestamp)
  }

  function EvaluateRule(e: Evaluation, rule: Rule, ev: SecurityEvent): Evaluation {
    if !rule.matches(ev) then e
    else if rule.threshold.None? then e.(findings := e.findings + [Found(rule, ev)])
    else
      var th, key := rule.threshold.value, HitKey(SubjectKey(ev), rule);
      var kept := T.Recorded(StoredHits(e.hits, key), ev.timestamp, th);
      Evaluation(if |kept| >= th.count then e.findings + [Found(rule, ev)] else e.findings, e.hits[key := kept])
  }

  function Evaluate(rules: seq<Rule>, hits: Hits, ev: SecurityEvent): Evaluation {
    if rules == [] then Evaluation([], hits)
    else EvaluateRule(Evaluate(rules[..|rules| - 1], hits, ev), rules[|rules| - 1], ev)
  }

  // -------------------------------------------------------------------------
  // Folding findings into an incident
  // -------------------------------------------------------------------------

  /** The incident that may absorb an event: the subject's open one, if the window
      has not passed, the store can produce it, and it is not closed. */
  function Absorbing(open: Open, held: Held, window: int, ev: SecurityEvent, c: Circumstances): Option<IncidentVal> {
    var subject := SubjectKey(ev);
    if subject in open && ev.timestamp - open[subject].lastSeen <= window && !c.getFails
       && open[subject].incidentID in held && held[open[subject].incidentID].status != CLOSED
    then Some(held[open[subject].incidentID])
    else None
  }

  function Opened(ev: SecurityEvent, c: Circumstances): IncidentVal {
    IncidentVal(c.newID, OPEN, SubjectKey(ev), ev.timestamp, ZERO_TIME, ZERO_TIME, [], [], NO_BLAST, 0, "", 0.0)
  }

  function Base(open: Open, held: Held, window: int, ev: SecurityEvent, c: Circumstances): IncidentVal {
    var a := Absorbing(open, held, window, ev, c);
    if a.Some? then a.value else Opened(ev, c)
  }

  function Accumulated(base: IncidentVal, ev: SecurityEvent, news: seq<Finding>, now: int): IncidentVal {
    base.(findings := MergedAll(base.findings, news),
          firstSeen := if ev.timestamp < base.firstSeen || base.firstSeen == ZERO_TIME then ev.timestamp else base.firstSeen,
          lastSeen := if ev.timestamp > base.lastSeen then ev.timestamp else base.lastSeen,
          updatedAt := now)
  }

  ghost predicate KnownCritical(g: View, ids: set<string>) {
    exists id :: id in ids && id in g.entities && g.entities[id].criticality == Entity.CRITICAL
  }

  function Cited(ev: SecurityEvent): Evidence {
    Evidence(ev.id, ev.timestamp, ev.category, ev.sourceName)
  }

  ghost predicate EvidenceAppended(before: seq<Evidence>, ev: SecurityEvent, after: seq<Evidence>) {
    if (exists e :: e in before && e.eventID == ev.id) || |before| >= MAX_INCIDENT_EVIDENCE then after == before
    else multiset(after) == multiset(before + [Cited(ev)]) && NoInversion(EvidenceLess, after)
  }

  ghost predicate Sorted(before: seq<Finding>, after: seq<Finding>) {
    multiset(after) == multiset(before) && NoInversion(RuleLess, after)
  }

  /** The score inputs an incident's findings give on a graph. */
  ghost predicate Derived(curve: Curve, g: View, inc: IncidentVal) {
    var ids := EntityIds(inc.findings);
    && IsBlast(curve, g, ids, DEFAULT_MAX_HOPS, inc.blastRadius)
    && (var a := Assessed(curve, Input(inc.findings, inc.blastRadius.score,
                                       KnownCritical(g, ids) || inc.blastRadius.criticalAssets > 0));
        inc.riskScore == a.score && inc.severity == a.severity && inc.confidence == a.confidence)
  }

  /** Every derived field is rebuilt from the findings and the graph. */
  ghost predicate Recomputed(curve: Curve, g: View, before: IncidentVal, ev: SecurityEvent, after: IncidentVal) {
    && after == before.(findings := after.findings, evidence := after.evidence, blastRadius := after.blastRadius,
                        riskScore := after.riskScore, severity := after.severity, confidence := after.confidence)
    && Sorted(before.findings, after.findings)
    && Derived(curve, g, after)
    && EvidenceAppended(before.evidence, ev, after.evidence)
  }

  /** One call of the engine on values; `inc` is the incident it built, if any. */
  ghost predicate ProcessStep(rules: seq<Rule>, window: int, curve: Curve, g: View, ev: SecurityEvent, c: Circumstances,
                              open: Open, hits: Hits, held: Held, inc: IncidentVal,
                              open': Open, hits': Hits, held': Held)
  {
    var e := Evaluate(rules, hits, ev);
    && hits' == e.hits
    && if e.findings == [] then open' == open && held' == held
       else
         && Recomputed(curve, g, Accumulated(Base(open, held, window, ev, c), ev, e.findings, c.now), ev, inc)
         && if c.saveFails || inc.id == "" then open' == open && held' == held
            else open' == open[SubjectKey(ev) := SubjectState(inc.id, ev.timestamp)] && held' == held[inc.id := inc]
  }

  /** What the findings weigh on a graph: how far they reach and what that is worth. */
  ghost predicate Weighed(curve: Curve, g: View, fs: seq<Finding>, blast: BlastRadius, a: Assessment) {
    var ids := EntityIds(fs);
    && IsBlast(curve, g, ids, DEFAULT_MAX_HOPS, blast)
    && a == Assessed(curve, Input(fs, blast.score, KnownCritical(g, ids) || blast.criticalAssets > 0))
  }

  lemma WeighedDerives(curve: Curve, g: View, inc: IncidentVal, a: Assessment)
    requires Weighed(curve, g, inc.findings, inc.blastRadius, a)
    requires inc.riskScore == a.score && inc.severity == a.severity && inc.confidence == a.confidence
    ensures Derived(curve, g, inc)
  {
    hide IsBlast, Assessed, EntityIds, KnownCritical;
  }

  lemma EvidenceDoesNotScore(curve: Curve, g: View, a: IncidentVal, b: IncidentVal)
    requires Derived(curve, g, a) && b == a.(evidence := b.evidence)
    ensures Derived(curve, g, b)
  {
  }

  // -------------------------------------------------------------------------
  // Working on the record
  // -------------------------------------------------------------------------

  lemma RuleWeakOrder()
    ensures WeakOrder(RuleLess)
  {
    StrTotal();
    forall a, b, c | !RuleLess(b, a) && !RuleLess(c, b) ensures !RuleLess(c, a) {
      assert !StrLess(b.ruleID, a.ruleID) && !StrLess(c.ruleID, b.ruleID) ==> !StrLess(c.ruleID, a.ruleID);
    }
  }

  lemma EvidenceWeakOrder()
    ensures WeakOrder(EvidenceLess)
  {
    StrTotal();
    forall a, b | EvidenceLess(a, b) ensures !EvidenceLess(b, a) {
      LexTrichotomy(CharLess, a.eventID, b.eventID);
    }
    forall a, b, c | !EvidenceLess(b, a) && !EvidenceLess(c, b) ensures !EvidenceLess(c, a) {
      assert !StrLess(b.eventID, a.eventID) && !StrLess(c.eventID, b.eventID) ==> !StrLess(c.eventID, a.eventID);
    }
  }

  /** The source event behind the latest update, kept in order; once each, while
      there is room. */
  method AppendEvidence(inc: Incident, ev: SecurityEvent)
    requires inc.Valid()
    modifies inc
    ensures inc.Valid() && fresh(inc.repr - old(inc.repr))
    ensures inc.Val() == old(inc.Val()).(evidence := inc.Val().evidence)
    ensures EvidenceAppended(old(inc.Val()).evidence, ev, inc.Val().evidence)
  {
    hide Incident.Val, EvidenceLess;
    var before := inc.evidence.items;
    assert before == inc.Val().evidence by { inc.ListsSaid(); }
    for i := 0 to |before|
      invariant unchanged(inc) && unchanged(inc.repr)
      invariant forall j :: 0 <= j < i ==> before[j].eventID != ev.id
    {
      if before[i].eventID == ev.id {
        assert before[i] in before;
        return;
      }
    }
    if |before| >= MAX_INCIDENT_EVIDENCE {
      return;
    }
    EvidenceWeakOrder();
    var sorted := SortSlice(before + [Cited(ev)], EvidenceLess);
    inc.SetEvidence(sorted);
  }

  /** The distinct entities of the findings, ranged over in any order. */
  method CollectIds(fs: seq<Finding>) returns (ids: seq<string>)
    ensures Elements(ids) == EntityIds(fs)
  {
    var entityIDs: set<string> := {};
    for i := 0 to |fs|
      invariant entityIDs == EntityIds(fs[..i])
    {
      assert fs[..i + 1] == fs[..i] + [fs[i]];
      entityIDs := entityIDs + set id | id in fs[i].entityIDs;
    }
    assert fs[..|fs|] == fs;
    ids := [];
    var rest := entityIDs;
    while rest != {}
      invariant rest <= entityIDs
      invariant Elements(ids) == entityIDs - rest
    {
      var id :| id in rest;
      ghost var before := ids;
      ids, rest := ids + [id], rest - {id};
      assert Elements(ids) == Elements(before) + {id};
    }
  }

  class Engine {
    const rules: seq<Rule>
    const graph: G.Graph
    const store: MemoryStore
    const window: int
    const curve: Curve
    var openSubjects: Open
    var thresholdHits: Hits

    constructor (curve: Curve, rules: seq<Rule>, graph: G.Graph, store: MemoryStore, window: int)
      ensures this.rules == rules && this.graph == graph && this.store == store && this.curve == curve
      ensures this.window == if window <= 0 then DEFAULT_WINDOW else window
      ensures openSubjects == map[] && thresholdHits == map[]
    {
      this.rules, this.graph, this.store, this.curve := rules, graph, store, curve;
      this.window := if window <= 0 then DEFAULT_WINDOW else window;
      openSubjects, thresholdHits := map[], map[];
    }

    /** Engine, store and graph are separate objects, each in order. */
    ghost predicate Ready()
      reads this, store, store.Repr(), graph, graph.entities.Values, graph.edges.Values
    {
      && store.Valid() && graph.Valid()
      && store.Repr() !! graph.Repr() && store !in graph.Repr()
      && this !in store.Repr() && this !in graph.Repr()
    }

    method ThresholdMet(subject: string, rule: Rule, th: T.Threshold, at: int) returns (met: bool)
      modifies this`thresholdHits
      ensures var kept := T.Recorded(StoredHits(old(thresholdHits), HitKey(subject, rule)), at, th);
        thresholdHits == old(thresholdHits)[HitKey(subject, rule) := kept] && (met <==> |kept| >= th.count)
    {
      var key := subject + "|" + rule.id;
      var kept := T.RecordHit(StoredHits(thresholdHits, key), at, th);
      thresholdHits := thresholdHits[key := kept];
      met := |kept| >= th.count;
    }

    /** Runs the first `n` rules; all of them, unless one of them fails. */
    method EvaluateRules(ev: SecurityEvent, subject: string, n: nat) returns (out: seq<Finding>)
      requires subject == SubjectKey(ev) && n <= |rules|
      modifies this`thresholdHits
      ensures Evaluate(rules[..n], old(thresholdHits), ev) == Evaluation(out, thresholdHits)
    {
      hide EvaluateRule;
      out := [];
      for i := 0 to n
        invariant Evaluate(rules[..i], old(thresholdHits), ev) == Evaluation(out, thresholdHits)
      {
        assert rules[..i + 1][..i] == rules[..i];
        out := EvaluateOne(rules[i], ev, subject, out);
      }
    }

    method EvaluateOne(rule: Rule, ev: SecurityEvent, subject: string, found: seq<Finding>) returns (out: seq<Finding>)
      requires subject == SubjectKey(ev)
      modifies this`thresholdHits
      ensures EvaluateRule(Evaluation(found, old(thresholdHits)), rule, ev) == Evaluation(out, thresholdHits)
    {
      hide EntityIDsForEvent, SubjectKey;
      if !rule.matches(ev) {
        return found;
      }
      if rule.threshold.Some? {
        var met := ThresholdMet(subject, rule, rule.threshold.value, ev.timestamp);
        if !met {
          return found;
        }
      }
      out := found + [Finding(rule.id, rule.category, rule.severity, rule.confidence,
                              EntityIDsForEvent(ev), [ev.id], ev.timestamp, ev.timestamp)];
    }

    /** A call that fails once `n` rules have run: their counters have moved, and
        nothing else has. */
    method ProcessFailing(ev: SecurityEvent, n: nat)
      requires Ready() && n <= |rules|
      modifies this`thresholdHits
      ensures Ready() && thresholdHits == Evaluate(rules[..n], old(thresholdHits), ev).hits
    {
      hide MemoryStore.Valid, G.Graph.Valid, Evaluate;
      var findings := EvaluateRules(ev, SubjectKey(ev), n);
    }

    /** Rebuilds everything derived. */
    method Recompute(inc: Incident, latest: SecurityEvent)
      requires graph.Valid() && inc.Valid() && inc.repr !! graph.Repr()
      modifies inc.repr
      ensures inc.Valid() && fresh(inc.repr - old(inc.repr))
      ensures Recomputed(curve, graph.Content(), old(inc.Val()), latest, inc.Val())
    {
      hide Derived, Sorted, EvidenceAppended, G.Graph.Valid, G.Graph.Content, Incident.Val;
      Rescore(inc);
      ghost var scored := inc.Val();
      AppendEvidence(inc, latest);
      EvidenceDoesNotScore(curve, graph.Content(), scored, inc.Val());
    }

    /** Sorts the findings and scores them on the current graph. */
    method Rescore(inc: Incident)
      requires graph.Valid() && inc.Valid() && inc.repr !! graph.Repr()
      modifies inc.repr
      ensures inc.Valid() && fresh(inc.repr - old(inc.repr))
      ensures var v := inc.Val(); v == old(inc.Val()).(findings := v.findings, blastRadius := v.blastRadius,
        riskScore := v.riskScore, severity := v.severity, confidence := v.confidence)
      ensures Sorted(old(inc.Val()).findings, inc.Val().findings)
      ensures Derived(curve, graph.Content(), inc.Val())
    {
      hide Weighed, Derived, NoInversion, RuleLess, G.Graph.Valid, G.Graph.Content, Incident.Val, Incident.Findings;
      RuleWeakOrder();
      assert inc.Findings() == inc.Val().findings by { inc.ListsSaid(); }
      var findings := SortSlice(inc.Findings(), RuleLess);
      inc.WriteFindings(findings);
      var blast, assessment := Weigh(findings);
      inc.SetAssessment(blast, assessment.score, assessment.severity, assessment.confidence);
      WeighedDerives(curve, graph.Content(), inc.Val(), assessment);
    }

    /** Estimates how far the findings reach and assesses them. */
    method Weigh(findings: seq<Finding>) returns (blast: BlastRadius, assessment: Assessment)
      requires graph.Valid()
      ensures Weighed(curve, graph.Content(), findings, blast, assessment)
    {
      hide IsBlast, Assessed, EntityIds, KnownCritical, G.Graph.Valid, G.Graph.Content;
      var ids := CollectIds(findings);
      var touchesCritical := TouchesCritical(ids);
      blast := graph.EstimateBlastRadius(curve, ids, DEFAULT_MAX_HOPS);
      if blast.criticalAssets > 0 {
        touchesCritical := true;
      }
      assessment := Assess(curve, Input(findings, blast.score, touchesCritical));
    }

    method TouchesCritical(ids: seq<string>) returns (touches: bool)
      requires graph.Valid()
      ensures touches <==> KnownCritical(graph.Content(), Elements(ids))
    {
      touches := false;
      for i := 0 to |ids|
        invariant touches <==> exists j :: 0 <= j < i && ids[j] in graph.entities
                                           && graph.entities[ids[j]].criticality == Entity.CRITICAL
      {
        if ids[i] in graph.entities && graph.entities[ids[i]].criticality == Entity.CRITICAL {
          touches := true;
        }
      }
      graph.NodeKeys();
      forall i | 0 <= i < |ids| && ids[i] in graph.entities
        ensures graph.Content().entities[ids[i]].criticality == graph.entities[ids[i]].criticality
      {
        graph.NodeAt(ids[i]);
      }
      if KnownCritical(graph.Content(), Elements(ids)) {
        var id :| id in Elements(ids) && id in graph.Content().entities
          && graph.Content().entities[id].criticality == Entity.CRITICAL;
        var j :| 0 <= j < |ids| && ids[j] == id;
      }
    }

    /** Folds findings into the subject's incident, or opens a new one. */
    method MergeIntoIncident(ev: SecurityEvent, subject: string, findings: seq<Finding>, c: Circumstances)
      returns (inc: Incident, saved: bool)
      requires subject == SubjectKey(ev)
      requires Ready()
      modifies this`openSubjects, store`incidents, store`incidentOrder, store`held, store`incidentRepr
      ensures Ready() && fresh(store.Repr() - old(store.Repr()))
      ensures inc.Valid() && Recomputed(curve, graph.Content(),
                         Accumulated(Base(old(openSubjects), old(store.held), window, ev, c), ev, findings, c.now), ev, inc.Val())
      ensures saved <==> !c.saveFails && inc.id != ""
      ensures openSubjects == if saved then old(openSubjects)[subject := SubjectState(inc.id, ev.timestamp)] else old(openSubjects)
      ensures store.held == if saved then old(store.held)[inc.id := inc.Val()] else old(store.held)
      ensures graph.Content() == old(graph.Content())
    {
      hide Recomputed, Accumulated, Base, MemoryStore.Valid, G.Graph.Valid, G.Graph.Content, Incident.Val;
      inc := BuildIncident(ev, subject, findings, c);
      saved := Persist(inc, subject, ev.timestamp, c.saveFails);
    }

    /** Saves the incident and routes its subject to it; or neither. */
    method Persist(inc: Incident, subject: string, at: int, fails: bool) returns (saved: bool)
      requires Ready() && inc.Valid() && inc.repr !! {this, store} + store.Repr()
      modifies this`openSubjects, store`incidents, store`incidentOrder, store`held, store`incidentRepr
      ensures Ready() && fresh(store.Repr() - old(store.Repr()))
      ensures saved <==> !fails && inc.id != ""
      ensures inc.Valid() && inc.Val() == old(inc.Val())
      ensures openSubjects == if saved then old(openSubjects)[subject := SubjectState(inc.id, at)] else old(openSubjects)
      ensures store.held == if saved then old(store.held)[inc.id := inc.Val()] else old(store.held)
      ensures graph.Content() == old(graph.Content())
    {
      hide MemoryStore.Valid, G.Graph.Valid, G.Graph.Content, G.Graph.Repr, Incident.Val;
      saved := false;
      graph.PartsExist();
      if !fails {
        saved := store.SaveIncident(inc);
      }
      if saved {
        openSubjects := openSubjects[subject := SubjectState(inc.id, at)];
      }
    }

    method BuildIncident(ev: SecurityEvent, subject: string, findings: seq<Finding>, c: Circumstances) returns (inc: Incident)
      requires subject == SubjectKey(ev) && Ready()
      ensures inc.Valid() && fresh(inc.repr) && Recomputed(curve, graph.Content(),
                Accumulated(Base(openSubjects, store.held, window, ev, c), ev, findings, c.now), ev, inc.Val())
    {
      hide Recomputed, Accumulated, Base, MemoryStore.Valid, G.Graph.Valid, G.Graph.Content, Incident.Val;
      inc := FindOrOpen(ev, subject, c);
      assert inc.repr !! graph.Repr() && inc.repr !! store.Repr();
      Accumulate(inc, ev, findings, c.now);
      Recompute(inc, ev);
    }

    method FindOrOpen(ev: SecurityEvent, subject: string, c: Circumstances) returns (inc: Incident)
      requires subject == SubjectKey(ev) && store.Valid()
      ensures inc.Valid() && fresh(inc.repr) && inc.Val() == Base(openSubjects, store.held, window, ev, c)
    {
      hide MemoryStore.Valid;
      var open := subject in openSubjects;
      var expired := open && ev.timestamp - openSubjects[subject].lastSeen > window;
      if open && !expired && !c.getFails {
        var existing := store.GetIncident(openSubjects[subject].incidentID);
        if existing.Some? && existing.value.status != CLOSED {
          return existing.value;
        }
      }
      inc := new Incident(Opened(ev, c));
    }

    method Accumulate(inc: Incident, ev: SecurityEvent, findings: seq<Finding>, now: int)
      requires inc.Valid()
      modifies inc.repr
      ensures inc.Valid() && fresh(inc.repr - old(inc.repr))
      ensures inc.Val() == Accumulated(old(inc.Val()), ev, findings, now)
    {
      hide RowVals, RowCells, MergedAll;
      MergeAll(inc, findings);
      if ev.timestamp < inc.firstSeen || inc.firstSeen == ZERO_TIME {
        inc.firstSeen := ev.timestamp;
      }
      if ev.timestamp > inc.lastSeen {
        inc.lastSeen := ev.timestamp;
      }
      inc.updatedAt := now;
    }

    method MergeAll(inc: Incident, findings: seq<Finding>)
      requires inc.Valid()
      modifies inc.repr
      ensures inc.Valid() && fresh(inc.repr - old(inc.repr))
      ensures inc.Val() == old(inc.Val()).(findings := MergedAll(old(inc.Val()).findings, findings))
    {
      hide Incident.Val, MergedFinding;
      ghost var v := inc.Val();
      for i := 0 to |findings|
        invariant inc.Valid() && fresh(inc.repr - old(inc.repr))
        invariant inc.Val() == v.(findings := MergedAll(v.findings, findings[..i]))
      {
        assert findings[..i + 1][..i] == findings[..i];
        MergeFinding(inc, findings[i]);
      }
      assert findings[..|findings|] == findings;
    }

    /** One event through the engine. */
    method Process(ev: SecurityEvent, c: Circumstances) returns (inc: Incident?, ghost built: IncidentVal)
      requires Ready()
      modifies this, store`incidents, store`incidentOrder, store`held, store`incidentRepr
      ensures Ready() && fresh(store.Repr() - old(store.Repr()))
      ensures graph.Content() == old(graph.Content())
      ensures ProcessStep(rules, window, curve, graph.Content(), ev, c,
                          old(openSubjects), old(thresholdHits), old(store.held), built,
                          openSubjects, thresholdHits, store.held)
      ensures inc != null ==> inc.Valid() && inc.Val() == built && built.id in store.held && store.held[built.id] == built
    {
      hide Recomputed, Evaluate, MemoryStore.Valid, G.Graph.Valid, G.Graph.Content, G.Graph.Repr;
      var subject := SubjectKey(ev);
      var findings := EvaluateRules(ev, subject, |rules|);
      assert rules[..|rules|] == rules;
      if findings == [] {
        return null, Opened(ev, c);
      }
      var merged, saved := MergeIntoIncident(ev, subject, findings, c);
      built := merged.Val();
      inc := if saved then merged else null;
    }
  }
}

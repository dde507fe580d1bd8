/** The graph over whole runs in which nothing but events and inventories writes it:
    no edge ever dangles, and no incident cites an entity the graph does not know. */
module GraphRuns {
  import opened Events
  import opened Findings
  import opened GraphView
  import opened Incidents
  import opened Merging
  import opened Order
  import opened Projector
  import opened Correlation
  import opened EngineRuns
  import I = Inventory
  import Scale

  /** What an inventory load, also one refused halfway, merges. */
  ghost predicate FromInventory(us: seq<Upsert>) {
    exists inv, r, at :: I.Reports(inv, r) && us == I.Merged(inv, r, at)
  }

  /** Every other write of the graph is an inventory load. */
  ghost predicate Inventoried(ss: seq<Step>) {
    forall s :: s in ss && s.Upserted? ==> FromInventory(s.us)
  }

  ghost predicate Known(g: View, inc: IncidentVal) {
    EntityIds(inc.findings) <= g.entities.Keys
  }

  /** Every edge has both ends, everything is well formed, and every entity a saved
      finding names is in the graph. */
  ghost predicate Grounded(w: World) {
    Closed(w.graph) && WellFormed(w.graph) && forall id :: id in w.held ==> Known(w.graph, w.held[id])
  }

  lemma AbsorbedIds(known: Finding, f: Finding, ids: set<string>)
    requires (forall id :: id in known.entityIDs ==> id in ids) && (forall id :: id in f.entityIDs ==> id in ids)
    ensures forall id :: id in Absorbed(known, f).entityIDs ==> id in ids
  {
    ExtendedKeeps(known.entityIDs, f.entityIDs, -1);
  }

  /** Merging names no entity of its own. */
  lemma {:induction false} MergedIds(fs: seq<Finding>, news: seq<Finding>, ids: set<string>)
    requires EntityIds(fs) <= ids && EntityIds(news) <= ids
    ensures EntityIds(MergedAll(fs, news)) <= ids
    decreases |news|
  {
    if news != [] {
      var init, f := news[..|news| - 1], news[|news| - 1];
      assert f in news && forall x :: x in init ==> x in news;
      MergedIds(fs, init, ids);
      var merged := MergedAll(fs, init);
      var i := RuleIndex(merged, f.ruleID);
      if i < |merged| {
        assert merged[i] in merged;
        AbsorbedIds(merged[i], f, ids);
      }
      hide MergedAll, Absorbed;
      forall g | g in MergedFinding(merged, f) ensures forall id :: id in g.entityIDs ==> id in ids {
        assert g in merged || g == f || (i < |merged| && g == Absorbed(merged[i], f));
      }
    }
  }

  lemma {:induction false} FoundIds(rules: seq<Rule>, hits: Hits, ev: SecurityEvent)
    ensures forall f :: f in Evaluate(rules, hits, ev).findings ==> f.entityIDs == EntityIDsForEvent(ev)
  {
    hide EntityIDsForEvent;
    if rules != [] {
      FoundIds(rules[..|rules| - 1], hits, ev);
    }
  }

  lemma KnownGrows(g: View, g': View, inc: IncidentVal)
    requires Known(g, inc) && Grows(g, g')
    ensures Known(g', inc)
  {
  }

  lemma GraphGrows(cfg: Config, w: World, s: Step, w': World)
    requires Grounded(w) && Takes(cfg, w, s, w') && Inventoried([s])
    ensures Progress(w.graph, w'.graph) && Closed(w'.graph) && WellFormed(w'.graph)
  {
    hide Closed, WellFormed, Grows, ProcessStep, Evaluate, I.Reports;
    match s
    case Upserted(us) =>
      assert s in [s];
      var inv, r, at :| I.Reports(inv, r) && us == I.Merged(inv, r, at);
      I.InventoryProgress(w.graph, inv, r, at);
    case Recorded(ev, _) => ProjectionProgress(w.graph, ev);
    case Correlated(ev, _, _) => ProjectionProgress(w.graph, ev);
    case Restated(_, _) =>
      GrowsSelf(w.graph);
  }

  lemma BuiltKnown(cfg: Config, w: World, s: Step, w': World)
    requires Inv(cfg, w) && Grounded(w) && s.Correlated? && Takes(cfg, w, s, w') && Saves(cfg, w, s)
    requires Progress(w.graph, w'.graph)
    ensures Known(w'.graph, s.inc)
  {
    var b, news := BaseOf(cfg, w, s), Evaluate(cfg.rules, w.hits, s.ev).findings;
    hide Inv, Takes, Saves, Evaluate, Recomputed, BaseOf, Closed, WellFormed, MergedAll, Projected, EntityIDsForEvent, Grows;
    Grown(cfg, w, s, w');
    SavedAs(cfg, w, s, w');
    BaseIsHeldOrNew(cfg, w, s, w');
    FoundIds(cfg.rules, w.hits, s.ev);
    ProjectionProgress(w.graph, s.ev);
    if b.id in w.held {
      KnownGrows(w.graph, w'.graph, b);
    }
    MergedIds(b.findings, news, w'.graph.entities.Keys);
    RecomputedIds(cfg.curve, w'.graph, Accumulated(b, s.ev, news, s.c.now), s.ev, s.inc);
  }

  lemma RecomputedIds(curve: Scale.Curve, g: View, before: IncidentVal, ev: SecurityEvent, after: IncidentVal)
    requires Recomputed(curve, g, before, ev, after)
    ensures EntityIds(after.findings) == EntityIds(before.findings)
  {
    SameElements(before.findings, after.findings);
  }

  lemma KnownLater(g: View, a: IncidentVal, g': View, b: IncidentVal)
    requires Known(g, a) && Grows(g, g') && b.findings == a.findings
    ensures Known(g', b)
  {
  }

  /** Every incident after a step was just built, or has the findings it had. */
  lemma StepIncidents(cfg: Config, w: World, s: Step, w': World)
    requires Inv(cfg, w) && Takes(cfg, w, s, w')
    ensures forall id :: id in w'.held ==>
      (s.Correlated? && Saves(cfg, w, s) && w'.held[id] == s.inc)
      || (id in w.held && w'.held[id].findings == w.held[id].findings)
  {
    hide Inv, Takes, Saves, BaseOf;
    if s.Correlated? {
      SavedWorld(cfg, w, s, w');
    } else {
      OtherSteps(cfg, w, s, w');
    }
  }

  lemma StepGrounds(cfg: Config, w: World, s: Step, w': World)
    requires Inv(cfg, w) && Grounded(w) && Takes(cfg, w, s, w') && Inventoried([s])
    ensures Grounded(w')
  {
    hide Inv, Takes, Saves, Closed, WellFormed, Inventoried, Known, Grows;
    GraphGrows(cfg, w, s, w');
    StepIncidents(cfg, w, s, w');
    if s.Correlated? && Saves(cfg, w, s) {
      BuiltKnown(cfg, w, s, w');
    }
    forall id | id in w'.held ensures Known(w'.graph, w'.held[id]) {
      if !(s.Correlated? && Saves(cfg, w, s) && w'.held[id] == s.inc) {
        KnownLater(w.graph, w.held[id], w'.graph, w'.held[id]);
      }
    }
  }

  lemma StartGrounded()
    ensures Grounded(START)
  {
  }

  /** In every reachable state of such a run. */
  lemma {:induction false} RunsStayGrounded(cfg: Config, ws: seq<World>, ss: seq<Step>, i: nat)
    requires Run(cfg, ws, ss) && Inventoried(ss) && i < |ws|
    ensures Grounded(ws[i])
  {
    hide Takes, Inv, Grounded, FromInventory;
    if i == 0 {
      StartGrounded();
    } else {
      RunsStayGrounded(cfg, ws, ss, i - 1);
      ReachableWorlds(cfg, ws, ss, i - 1);
      assert Takes(cfg, ws[i - 1], ss[i - 1], ws[i - 1 + 1]);
      assert ss[i - 1] in ss;
      StepGrounds(cfg, ws[i - 1], ss[i - 1], ws[i]);
    }
  }
}

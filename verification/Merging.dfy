/** How findings and evidence accumulate on an incident. */
module Merging {
  import opened Order
  import opened Findings
  import opened Incidents
  import opened RiskTheorems

  const MAX_FINDING_EVENTS := 100
  const MAX_INCIDENT_EVIDENCE := 200

  /** Appends what is new while fewer than `cap` are held (no cap if negative). */
  function Extended(ids: seq<string>, more: seq<string>, cap: int): seq<string> {
    if more == [] then ids
    else
      var r, id := Extended(ids, more[..|more| - 1], cap), more[|more| - 1];
      if (cap >= 0 && |r| >= cap) || id in r then r else r + [id]
  }

  function Absorbed(known: Finding, f: Finding): Finding {
    known.(lastSeen := if f.lastSeen > known.lastSeen then f.lastSeen else known.lastSeen,
           firstSeen := if f.firstSeen < known.firstSeen then f.firstSeen else known.firstSeen,
           eventIDs := Extended(known.eventIDs, f.eventIDs, MAX_FINDING_EVENTS),
           entityIDs := Extended(known.entityIDs, f.entityIDs, -1))
  }

  /** Position of the first finding of a rule, or the length. */
  function RuleIndex(fs: seq<Finding>, ruleID: string): (i: nat)
    ensures i <= |fs|
    ensures i < |fs| ==> fs[i].ruleID == ruleID
    ensures forall j :: 0 <= j < i ==> fs[j].ruleID != ruleID
  {
    if fs == [] then 0
    else if fs[0].ruleID == ruleID then 0
    else 1 + RuleIndex(fs[1..], ruleID)
  }

  function MergedFinding(fs: seq<Finding>, f: Finding): seq<Finding> {
    var i := RuleIndex(fs, f.ruleID);
    if i < |fs| then fs[i := Absorbed(fs[i], f)] else fs + [f]
  }

  function MergedAll(fs: seq<Finding>, news: seq<Finding>): seq<Finding> {
    if news == [] then fs
    else MergedFinding(MergedAll(fs, news[..|news| - 1]), news[|news| - 1])
  }

  predicate RuleLess(a: Finding, b: Finding) {
    StrLess(a.ruleID, b.ruleID)
  }

  predicate EvidenceLess(a: Evidence, b: Evidence) {
    if a.occurredAt != b.occurredAt then a.occurredAt < b.occurredAt else StrLess(a.eventID, b.eventID)
  }

  ghost function EntityIds(fs: seq<Finding>): set<string> {
    set f, id | f in fs && id in f.entityIDs :: id
  }

  // -------------------------------------------------------------------------
  // The methods that do it in place
  // -------------------------------------------------------------------------

  method Extend(ids: seq<string>, more: seq<string>, cap: int) returns (r: seq<string>)
    ensures r == Extended(ids, more, cap)
  {
    r := ids;
    for i := 0 to |more|
      invariant r == Extended(ids, more[..i], cap)
    {
      assert more[..i + 1][..i] == more[..i];
      if cap >= 0 && |r| >= cap {
        CappedStays(ids, more, cap, i);
        break;
      }
      if more[i] !in r {
        r := r + [more[i]];
      }
    }
    assert more[..|more|] == more;
  }

  /** Once full, the rest of the list changes nothing. */
  lemma {:induction false} CappedStays(ids: seq<string>, more: seq<string>, cap: int, i: nat)
    requires i <= |more| && 0 <= cap <= |Extended(ids, more[..i], cap)|
    ensures Extended(ids, more, cap) == Extended(ids, more[..i], cap)
    decreases |more| - i
  {
    if i < |more| {
      assert more[..i + 1][..i] == more[..i];
      CappedStays(ids, more, cap, i + 1);
    } else {
      assert more[..i] == more;
    }
  }

  lemma MergedAt(fs: seq<Finding>, f: Finding, i: nat)
    requires i <= |fs| && forall j :: 0 <= j < i ==> fs[j].ruleID != f.ruleID
    requires i < |fs| ==> fs[i].ruleID == f.ruleID
    ensures MergedFinding(fs, f) == if i < |fs| then fs[i := Absorbed(fs[i], f)] else fs + [f]
  {
    hide Absorbed;
  }

  /** A rule that fires again updates its finding, through the slice it lies in. */
  method Refresh(inc: Incident, i: nat, f: Finding)
    requires inc.Valid() && i < |inc.Findings()|
    modifies inc.findings, inc`repr
    ensures inc.Valid() && fresh(inc.repr - old(inc.repr))
    ensures inc.Val() == old(inc.Val()).(findings := old(inc.Findings())[i := Absorbed(old(inc.Findings())[i], f)])
  {
    hide Incident.Val, Incident.Findings, Extended;
    var fs := inc.Findings();
    var existing := fs[i];
    if f.lastSeen > existing.lastSeen {
      existing := existing.(lastSeen := f.lastSeen);
    }
    if f.firstSeen < existing.firstSeen {
      existing := existing.(firstSeen := f.firstSeen);
    }
    var eventIDs := Extend(existing.eventIDs, f.eventIDs, MAX_FINDING_EVENTS);
    var entityIDs := Extend(existing.entityIDs, f.entityIDs, -1);
    inc.WriteFindings(fs[i := existing.(eventIDs := eventIDs, entityIDs := entityIDs)]);
  }

  method MergeFinding(inc: Incident, f: Finding)
    requires inc.Valid()
    modifies inc, inc.findings
    ensures inc.Valid() && fresh(inc.repr - old(inc.repr))
    ensures inc.Val() == old(inc.Val()).(findings := MergedFinding(old(inc.Val()).findings, f))
  {
    hide Absorbed, MergedFinding, Incident.Val, Incident.Findings, Incident.Valid;
    var fs := inc.Findings();
    assert fs == inc.Val().findings by { inc.ListsSaid(); }
    for i := 0 to |fs|
      invariant unchanged(inc) && unchanged(inc.repr)
      invariant forall j :: 0 <= j < i ==> fs[j].ruleID != f.ruleID
    {
      if fs[i].ruleID != f.ruleID {
        continue;
      }
      MergedAt(fs, f, i);
      Refresh(inc, i, f);
      return;
    }
    MergedAt(fs, f, |fs|);
    inc.AppendFinding(f);
  }

  // -------------------------------------------------------------------------
  // What merging keeps
  // -------------------------------------------------------------------------

  ghost predicate RulesDistinct(fs: seq<Finding>) {
    forall i, j :: 0 <= i < j < |fs| ==> fs[i].ruleID != fs[j].ruleID
  }

  /** The same detection, with at least the same observations. */
  ghost predicate SameRule(f: Finding, g: Finding) {
    && f.ruleID == g.ruleID && f.category == g.category
    && f.severity == g.severity && f.confidence == g.confidence
    && (forall id :: id in f.eventIDs ==> id in g.eventIDs)
    && (forall id :: id in f.entityIDs ==> id in g.entityIDs)
    && g.firstSeen <= f.firstSeen && f.lastSeen <= g.lastSeen
  }

  /** Every finding of `fs` lives on in `gs`. */
  ghost predicate Accumulates(fs: seq<Finding>, gs: seq<Finding>) {
    forall f :: f in fs ==> exists g :: g in gs && SameRule(f, g)
  }

  lemma {:induction false} ExtendedKeeps(ids: seq<string>, more: seq<string>, cap: int)
    ensures ids <= Extended(ids, more, cap)
    ensures forall id :: id in Extended(ids, more, cap) ==> id in ids || id in more
    ensures Distinct(ids) ==> Distinct(Extended(ids, more, cap))
    ensures cap >= 0 && |ids| <= cap ==> |Extended(ids, more, cap)| <= cap
    decreases |more|
  {
    if more != [] {
      ExtendedKeeps(ids, more[..|more| - 1], cap);
    }
  }

  lemma AbsorbedSameRule(known: Finding, f: Finding)
    ensures SameRule(known, Absorbed(known, f))
  {
    ExtendedKeeps(known.eventIDs, f.eventIDs, MAX_FINDING_EVENTS);
    ExtendedKeeps(known.entityIDs, f.entityIDs, -1);
  }

  lemma MergedFindingKeeps(fs: seq<Finding>, f: Finding)
    ensures RulesDistinct(fs) ==> RulesDistinct(MergedFinding(fs, f))
    ensures Accumulates(fs, MergedFinding(fs, f))
  {
    var i := RuleIndex(fs, f.ruleID);
    var gs := MergedFinding(fs, f);
    forall x | x in fs ensures exists g :: g in gs && SameRule(x, g) {
      var k :| 0 <= k < |fs| && fs[k] == x;
      AbsorbedSameRule(fs[k], f);
      assert gs[k] in gs && SameRule(x, gs[k]);
    }
  }

  lemma AccumulatesTransitive(a: seq<Finding>, b: seq<Finding>, c: seq<Finding>)
    requires Accumulates(a, b) && Accumulates(b, c)
    ensures Accumulates(a, c)
  {
    forall f | f in a ensures exists h :: h in c && SameRule(f, h) {
      var g :| g in b && SameRule(f, g);
      var h :| h in c && SameRule(g, h);
      assert SameRule(f, h);
    }
  }

  lemma {:induction false} MergedAllKeeps(fs: seq<Finding>, news: seq<Finding>)
    ensures RulesDistinct(fs) ==> RulesDistinct(MergedAll(fs, news))
    ensures Accumulates(fs, MergedAll(fs, news))
    decreases |news|
  {
    if news == [] {
      forall f | f in fs ensures exists g :: g in fs && SameRule(f, g) {
        assert SameRule(f, f);
      }
    } else {
      var init := news[..|news| - 1];
      MergedAllKeeps(fs, init);
      MergedFindingKeeps(MergedAll(fs, init), news[|news| - 1]);
      AccumulatesTransitive(fs, MergedAll(fs, init), MergedAll(fs, news));
    }
  }

  /** A finding within an incident's bounds, citing only accepted events. */
  ghost predicate FindingOK(f: Finding, first: int, last: int, accepted: set<string>) {
    && Distinct(f.eventIDs) && |f.eventIDs| <= MAX_FINDING_EVENTS
    && first <= f.firstSeen <= f.lastSeen <= last
    && (forall id :: id in f.eventIDs ==> id in accepted)
  }

  ghost predicate AllOK(fs: seq<Finding>, first: int, last: int, accepted: set<string>) {
    forall f :: f in fs ==> FindingOK(f, first, last, accepted)
  }

  lemma AbsorbedOK(known: Finding, f: Finding, first: int, last: int, accepted: set<string>)
    requires FindingOK(known, first, last, accepted) && FindingOK(f, first, last, accepted)
    ensures FindingOK(Absorbed(known, f), first, last, accepted)
  {
    ExtendedKeeps(known.eventIDs, f.eventIDs, MAX_FINDING_EVENTS);
  }

  lemma {:induction false} MergedAllOK(fs: seq<Finding>, news: seq<Finding>, first: int, last: int, accepted: set<string>)
    requires AllOK(fs, first, last, accepted) && AllOK(news, first, last, accepted)
    ensures AllOK(MergedAll(fs, news), first, last, accepted)
    decreases |news|
  {
    if news != [] {
      var init, f := news[..|news| - 1], news[|news| - 1];
      MergedAllOK(fs, init, first, last, accepted);
      var merged := MergedAll(fs, init);
      var i := RuleIndex(merged, f.ruleID);
      assert f in news;
      if i < |merged| {
        AbsorbedOK(merged[i], f, first, last, accepted);
      }
    }
  }

  /** Accumulated findings dominate in the sense risk scoring is monotone in. */
  lemma {:induction false} AccumulatesCovers(fs: seq<Finding>, gs: seq<Finding>) returns (emb: seq<nat>)
    requires RulesDistinct(fs) && Accumulates(fs, gs)
    ensures Covers(fs, gs, emb)
    ensures forall i :: 0 <= i < |fs| ==> gs[emb[i]].ruleID == fs[i].ruleID
    decreases |fs|
  {
    if fs == [] {
      emb := [];
    } else {
      var n := |fs| - 1;
      assert Accumulates(fs[..n], gs) by {
        assert forall f :: f in fs[..n] ==> f in fs;
      }
      var e := AccumulatesCovers(fs[..n], gs);
      assert fs[n] in fs;
      var g :| g in gs && SameRule(fs[n], g);
      var j :| 0 <= j < |gs| && gs[j] == g;
      emb := e + [j];
      forall i | 0 <= i < |fs| ensures emb[i] < |gs| && AtLeast(fs[i], gs[emb[i]]) && gs[emb[i]].ruleID == fs[i].ruleID {
        assert i < n ==> AtLeast(fs[..n][i], gs[e[i]]);
      }
    }
  }

  lemma EntityIdsGrow(fs: seq<Finding>, gs: seq<Finding>)
    requires Accumulates(fs, gs)
    ensures EntityIds(fs) <= EntityIds(gs)
  {
    forall id | id in EntityIds(fs) ensures id in EntityIds(gs) {
      var f :| f in fs && id in f.entityIDs;
      var g :| g in gs && SameRule(f, g);
    }
  }
}

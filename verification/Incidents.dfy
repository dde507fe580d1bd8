/** Incidents: the value an incident amounts to, and the mutable record the engine
    works on. */
module Incidents {
  import opened Findings
  import opened Slices
  import opened BlastRadii

  const OPEN := "open"
  const CLOSED := "closed"

  datatype Evidence = Evidence(eventID: string, occurredAt: int, category: string, sourceName: string)

  datatype IncidentVal = IncidentVal(
    id: string, status: string, primaryIdentity: string,
    firstSeen: int, lastSeen: int, updatedAt: int,
    findings: seq<Finding>, evidence: seq<Evidence>, blastRadius: BlastRadius,
    riskScore: int, severity: string, confidence: real)

  const NO_BLAST := BlastRadius(0, 0, 0, [])

  // -------------------------------------------------------------------------
  // Slices: each is a reference to cells that every holder of it shares
  // -------------------------------------------------------------------------

  class EvidenceCells {
    var items: seq<Evidence>

    constructor (items: seq<Evidence>)
      ensures this.items == items
    {
      this.items := items;
    }
  }

  class ReachedCells {
    var items: seq<Reached>

    constructor (items: seq<Reached>)
      ensures this.items == items
    {
      this.items := items;
    }
  }

  /** One finding as it lies in a slice: its plain fields, and its own two slices. */
  datatype FindingRow = FindingRow(plain: Finding, entityIDs: StringCells, eventIDs: StringCells)

  class FindingCells {
    var rows: seq<FindingRow>

    constructor (rows: seq<FindingRow>)
      ensures this.rows == rows
    {
      this.rows := rows;
    }
  }

  function RowVal(r: FindingRow): Finding
    reads r.entityIDs, r.eventIDs
  {
    r.plain.(entityIDs := r.entityIDs.items, eventIDs := r.eventIDs.items)
  }

  ghost function RowCells(rows: seq<FindingRow>): (r: set<object>)
    ensures forall o :: o in r ==> o is StringCells
  {
    (set r | r in rows :: r.entityIDs) + (set r | r in rows :: r.eventIDs)
  }

  function RowVals(rows: seq<FindingRow>): (fs: seq<Finding>)
    reads RowCells(rows)
    ensures |fs| == |rows| && forall i :: 0 <= i < |rows| ==> fs[i] == RowVal(rows[i])
  {
    seq(|rows|, i requires 0 <= i < |rows| reads RowCells(rows) => RowVal(rows[i]))
  }

  lemma RowsSnoc(rows: seq<FindingRow>, r: FindingRow)
    ensures RowVals(rows + [r]) == RowVals(rows) + [RowVal(r)]
    ensures RowCells(rows + [r]) == RowCells(rows) + {r.entityIDs, r.eventIDs}
  {
    assert forall x :: x in rows + [r] <==> x in rows || x == r;
  }

  /** A row of its own for a finding. */
  method MakeRow(f: Finding) returns (r: FindingRow)
    ensures RowVal(r) == f && fresh(r.entityIDs) && fresh(r.eventIDs)
  {
    var entityIDs := new StringCells(f.entityIDs);
    var eventIDs := new StringCells(f.eventIDs);
    r := FindingRow(f.(entityIDs := [], eventIDs := []), entityIDs, eventIDs);
  }

  method MakeRows(fs: seq<Finding>) returns (rows: seq<FindingRow>)
    ensures RowVals(rows) == fs && fresh(RowCells(rows))
  {
    rows := [];
    for i := 0 to |fs|
      invariant |rows| == i
      invariant forall j :: 0 <= j < i ==> fresh(rows[j].entityIDs) && fresh(rows[j].eventIDs)
      invariant forall j :: 0 <= j < i ==> RowVal(rows[j]) == fs[j]
    {
      var r := MakeRow(fs[i]);
      rows := rows + [r];
    }
  }

  /** Copies the rows and, one by one, the slices inside them. */
  method CopyRows(rows: seq<FindingRow>) returns (copied: seq<FindingRow>)
    ensures RowVals(copied) == RowVals(rows) && fresh(RowCells(copied))
  {
    copied := rows;
    for i := 0 to |rows|
      invariant |copied| == |rows|
      invariant forall j :: i <= j < |rows| ==> copied[j] == rows[j]
      invariant forall j :: 0 <= j < i ==> fresh(copied[j].entityIDs) && fresh(copied[j].eventIDs)
      invariant forall j :: 0 <= j < |rows| ==> RowVal(copied[j]) == RowVal(rows[j])
    {
      var eventIDs := new StringCells(copied[i].eventIDs.items);
      var entityIDs := new StringCells(copied[i].entityIDs.items);
      copied := copied[i := copied[i].(eventIDs := eventIDs, entityIDs := entityIDs)];
    }
  }

  method MakeFindings(fs: seq<Finding>) returns (c: FindingCells)
    ensures fresh(c) && fresh(RowCells(c.rows)) && RowVals(c.rows) == fs
  {
    hide RowVals;
    var rows := MakeRows(fs);
    c := new FindingCells(rows);
  }

  method CopyFindings(o: FindingCells) returns (c: FindingCells)
    ensures fresh(c) && fresh(RowCells(c.rows)) && RowVals(c.rows) == RowVals(o.rows)
  {
    hide RowVals;
    var rows := CopyRows(o.rows);
    c := new FindingCells(rows);
  }

  // -------------------------------------------------------------------------
  // The record
  // -------------------------------------------------------------------------

  class Incident {
    var id: string
    var status: string
    var primaryIdentity: string
    var firstSeen: int
    var lastSeen: int
    var updatedAt: int
    var riskScore: int
    var severity: string
    var confidence: real
    // The estimate but for its list of entities.
    var blastRadius: BlastRadius
    var findings: FindingCells
    var evidence: EvidenceCells
    var reachable: ReachedCells
    // Everything a holder of this incident can reach and change.
    ghost var repr: set<object>

    constructor (v: IncidentVal)
      ensures Valid() && Val() == v && fresh(repr)
    {
      hide RowVals, RowCells;
      id, status, primaryIdentity := v.id, v.status, v.primaryIdentity;
      firstSeen, lastSeen, updatedAt := v.firstSeen, v.lastSeen, v.updatedAt;
      riskScore, severity, confidence := v.riskScore, v.severity, v.confidence;
      blastRadius := v.blastRadius.(reachable := []);
      evidence := new EvidenceCells(v.evidence);
      reachable := new ReachedCells(v.blastRadius.reachable);
      var cells := MakeFindings(v.findings);
      findings := cells;
      repr := {this, cells, evidence, reachable} + RowCells(cells.rows);
    }

    /** A struct copy: every slice is shared with the original. */
    constructor Shallow(o: Incident)
      ensures id == o.id && status == o.status && primaryIdentity == o.primaryIdentity
      ensures firstSeen == o.firstSeen && lastSeen == o.lastSeen && updatedAt == o.updatedAt
      ensures riskScore == o.riskScore && severity == o.severity && confidence == o.confidence
      ensures blastRadius == o.blastRadius
      ensures findings == o.findings && evidence == o.evidence && reachable == o.reachable
      ensures repr == o.repr + {this}
    {
      id, status, primaryIdentity := o.id, o.status, o.primaryIdentity;
      firstSeen, lastSeen, updatedAt := o.firstSeen, o.lastSeen, o.updatedAt;
      riskScore, severity, confidence := o.riskScore, o.severity, o.confidence;
      blastRadius, findings, evidence, reachable := o.blastRadius, o.findings, o.evidence, o.reachable;
      repr := o.repr + {this};
    }

    ghost predicate Valid()
      reads this, repr
    {
      && {this, findings, evidence, reachable} <= repr
      && RowCells(findings.rows) <= repr
    }

    function Val(): (v: IncidentVal)
      requires Valid()
      reads this, repr
      ensures v.id == id
    {
      IncidentVal(id, status, primaryIdentity, firstSeen, lastSeen, updatedAt,
                  RowVals(findings.rows), evidence.items, blastRadius.(reachable := reachable.items),
                  riskScore, severity, confidence)
    }

    function Findings(): (fs: seq<Finding>)
      requires Valid()
      reads this, repr
    {
      RowVals(findings.rows)
    }

    lemma ListsSaid()
      requires Valid()
      ensures Findings() == Val().findings && evidence.items == Val().evidence
    {
    }

    /** This incident lies wholly within `all` and says `v`. */
    ghost predicate Held(v: IncidentVal, all: set<object>)
      reads all
    {
      this in all && repr <= all && Valid() && Val() == v
    }

    lemma HeldSays(v: IncidentVal, all: set<object>)
      requires Held(v, all)
      ensures Valid() && Val() == v && this in repr && repr <= all && id == v.id
    {
    }

    lemma HeldGrows(v: IncidentVal, all: set<object>, more: set<object>)
      requires Held(v, all) && all <= more
      ensures Held(v, more)
    {
    }

    /** A struct copy whose slices, nested ones included, are then replaced one by one. */
    method DeepCopy() returns (out: Incident)
      requires Valid()
      ensures out.Held(Val(), out.repr) && fresh(out.repr)
    {
      hide RowVals, RowCells;
      out := new Incident.Shallow(this);
      var evidence' := new EvidenceCells(evidence.items);
      var reachable' := new ReachedCells(reachable.items);
      var findings' := CopyFindings(findings);
      out.findings, out.evidence, out.reachable := findings', evidence', reachable';
      out.repr := {out, findings', evidence', reachable'} + RowCells(findings'.rows);
      assert out.Val() == Val();
    }

    // -----------------------------------------------------------------------
    // Writing through the slices
    // -----------------------------------------------------------------------

    /** Overwrites the cells of the findings slice in place. */
    method WriteFindings(fs: seq<Finding>)
      requires Valid()
      modifies findings, this`repr
      ensures Valid() && fresh(repr - old(repr))
      ensures Val() == old(Val()).(findings := fs)
    {
      hide RowVals, RowCells;
      var rows := MakeRows(fs);
      findings.rows := rows;
      repr := repr + RowCells(rows);
    }

    /** Appending moves to a longer slice; what was there is copied. */
    method AppendFinding(f: Finding)
      requires Valid()
      modifies this
      ensures Valid() && fresh(repr - old(repr))
      ensures Val() == old(Val()).(findings := old(Val()).findings + [f])
    {
      hide RowVals, RowCells;
      var r := MakeRow(f);
      assert old(RowVals(findings.rows)) == RowVals(findings.rows);
      var cells := new FindingCells(findings.rows + [r]);
      RowsSnoc(findings.rows, r);
      findings := cells;
      repr := repr + {cells, r.entityIDs, r.eventIDs};
    }

    /** A longer slice takes the place of the evidence. */
    method SetEvidence(es: seq<Evidence>)
      requires Valid()
      modifies this
      ensures Valid() && fresh(repr - old(repr))
      ensures Val() == old(Val()).(evidence := es)
    {
      hide RowVals, RowCells;
      evidence := new EvidenceCells(es);
      repr := repr + {evidence};
    }

    /** An estimate and what it is worth. */
    method SetAssessment(blast: BlastRadius, score: int, severity: string, confidence: real)
      requires Valid()
      modifies this
      ensures Valid() && fresh(repr - old(repr))
      ensures Val() == old(Val()).(blastRadius := blast, riskScore := score, severity := severity, confidence := confidence)
    {
      hide RowVals, RowCells;
      ghost var findings' := RowVals(findings.rows);
      blastRadius := blast.(reachable := []);
      reachable := new ReachedCells(blast.reachable);
      riskScore, this.severity, this.confidence := score, severity, confidence;
      repr := repr + {reachable};
      assert RowVals(findings.rows) == findings';
    }
  }

  /** The records lie within `pool`, say `vals`, and share nothing with each other. */
  ghost predicate IncidentsApart(incidents: seq<Incident>, vals: seq<IncidentVal>, pool: set<object>): (apart: bool)
    reads pool
    ensures apart ==> |incidents| == |vals|
  {
    && |incidents| == |vals|
    && (forall i :: 0 <= i < |incidents| ==> incidents[i].Held(vals[i], pool))
    && (forall i, j :: 0 <= i < j < |incidents| ==> incidents[i].repr !! incidents[j].repr)
  }

  lemma OneMoreIncidentApart(incidents: seq<Incident>, vals: seq<IncidentVal>, pool: set<object>, one: Incident, v: IncidentVal)
    requires IncidentsApart(incidents, vals, pool) && one.Held(v, one.repr) && one.repr !! pool
    ensures IncidentsApart(incidents + [one], vals + [v], pool + one.repr)
  {
    hide Incident.Held, Incident.Val;
    var all := pool + one.repr;
    one.HeldGrows(v, one.repr, all);
    forall i | 0 <= i < |incidents| ensures incidents[i].Held(vals[i], all) && incidents[i].repr <= pool {
      incidents[i].HeldGrows(vals[i], pool, all);
      incidents[i].HeldSays(vals[i], pool);
    }
  }

  lemma IncidentApart(incidents: seq<Incident>, vals: seq<IncidentVal>, pool: set<object>, i: nat)
    requires IncidentsApart(incidents, vals, pool) && i < |incidents|
    ensures |vals| == |incidents| && incidents[i].Held(vals[i], pool)
    ensures incidents[i].Valid() && incidents[i].Val() == vals[i] && incidents[i] in incidents[i].repr && incidents[i].repr <= pool
  {
    incidents[i].HeldSays(vals[i], pool);
  }

  lemma JoinIncidentsApart(a: seq<Incident>, va: seq<IncidentVal>, pa: set<object>, b: seq<Incident>, vb: seq<IncidentVal>, pb: set<object>)
    requires IncidentsApart(a, va, pa) && IncidentsApart(b, vb, pb) && pa !! pb
    ensures IncidentsApart(a + b, va + vb, pa + pb)
  {
    hide Incident.Held, Incident.Val;
    forall i | 0 <= i < |a| ensures a[i].Held(va[i], pa + pb) && a[i].repr <= pa {
      a[i].HeldGrows(va[i], pa, pa + pb);
      a[i].HeldSays(va[i], pa);
    }
    forall i | 0 <= i < |b| ensures b[i].Held(vb[i], pa + pb) && b[i].repr <= pb {
      b[i].HeldGrows(vb[i], pb, pa + pb);
      b[i].HeldSays(vb[i], pb);
    }
  }

  /** Deep copies of records, sharing nothing with anyone. */
  method CopyIncidents(incidents: seq<Incident>, ghost vals: seq<IncidentVal>, ghost repr: set<object>)
    returns (copies: seq<Incident>, ghost pool: set<object>)
    requires |incidents| == |vals| && forall i :: 0 <= i < |incidents| ==> incidents[i].Held(vals[i], repr)
    ensures IncidentsApart(copies, vals, pool) && fresh(pool)
  {
    copies, pool := [], {};
    for i := 0 to |incidents|
      invariant IncidentsApart(copies, vals[..i], pool) && fresh(pool)
      invariant forall j :: 0 <= j < |incidents| ==> incidents[j].Held(vals[j], repr)
    {
      hide IncidentsApart, Incident.Held, Incident.Val;
      assert vals[..i + 1] == vals[..i] + [vals[i]];
      incidents[i].HeldSays(vals[i], repr);
      var c := incidents[i].DeepCopy();
      OneMoreIncidentApart(copies, vals[..i], pool, c, vals[i]);
      copies, pool := copies + [c], pool + c.repr;
    }
    assert vals[..|incidents|] == vals;
  }

  method NewIncident(incidents: seq<Incident>, ghost vals: seq<IncidentVal>, ghost pool: set<object>, v: IncidentVal)
    returns (more: seq<Incident>, ghost pool': set<object>)
    requires IncidentsApart(incidents, vals, pool)
    ensures IncidentsApart(more, vals + [v], pool') && pool <= pool' && fresh(pool' - pool)
  {
    hide IncidentsApart;
    var one := new Incident(v);
    assert one.Held(v, one.repr);
    OneMoreIncidentApart(incidents, vals, pool, one, v);
    more, pool' := incidents + [one], pool + one.repr;
  }
}

/** The Security Graph as a value: what it holds, how one upsert changes it, and
    why no sequence of upserts ever loses or downgrades anything. */
module GraphView {
  import opened Entity

  // Instants are integers; the zero `time.Time` is 0.
  const ZERO_TIME := 0

  // The most event ids one edge accumulates.
  const MAX_EDGE_EVIDENCE := 50

  datatype EntityVal = EntityVal(
    id: string, typ: string, key: string, name: string, criticality: string,
    attributes: map<string, string>, firstSeen: int, lastSeen: int, observed: bool)

  datatype EdgeName = EdgeName(from: string, to: string, relation: string)

  datatype EdgeVal = EdgeVal(firstSeen: int, lastSeen: int, eventIDs: seq<string>)

  datatype View = View(entities: map<string, EntityVal>, edges: map<EdgeName, EdgeVal>)

  const EMPTY := View(map[], map[])

  datatype Upsert =
    | PutEntity(e: EntityVal)
    | PutEdge(name: EdgeName, at: int, eventID: string)

  /** Defaults filled in before an entity is merged. */
  function Completed(e: EntityVal): EntityVal {
    var e1 := if e.id == "" then e.(id := EntityID(e.typ, e.key)) else e;
    if e1.criticality == "" then e1.(criticality := MEDIUM) else e1
  }

  /** How a later observation `e` of the same entity updates `known`. */
  function Merged(known: EntityVal, e: EntityVal): EntityVal {
    known.(name := if e.name != "" then e.name else known.name,
         criticality := if Rank(e.criticality) > Rank(known.criticality) then e.criticality else known.criticality,
         observed := known.observed || e.observed,
         attributes := known.attributes + e.attributes,
         firstSeen := if e.firstSeen != ZERO_TIME && (known.firstSeen == ZERO_TIME || e.firstSeen < known.firstSeen)
                      then e.firstSeen else known.firstSeen,
         lastSeen := if e.lastSeen > known.lastSeen then e.lastSeen else known.lastSeen)
  }

  function WithEntity(g: View, e: EntityVal): View {
    var c := Completed(e);
    g.(entities := g.entities[c.id := if c.id in g.entities then Merged(g.entities[c.id], c) else c])
  }

  predicate Degenerate(n: EdgeName) {
    n.from == "" || n.to == "" || n.from == n.to
  }

  function Touched(known: EdgeVal, at: int, eventID: string): EdgeVal {
    EdgeVal(
      if at < known.firstSeen || known.firstSeen == ZERO_TIME then at else known.firstSeen,
      if at > known.lastSeen then at else known.lastSeen,
      if eventID != "" && |known.eventIDs| < MAX_EDGE_EVIDENCE && eventID !in known.eventIDs
      then known.eventIDs + [eventID] else known.eventIDs)
  }

  function WithEdge(g: View, n: EdgeName, at: int, eventID: string): View {
    if Degenerate(n) then g
    else
      var known := if n in g.edges then g.edges[n] else EdgeVal(at, at, []);
      g.(edges := g.edges[n := Touched(known, at, eventID)])
  }

  function Apply(g: View, u: Upsert): View {
    match u
    case PutEntity(e) => WithEntity(g, e)
    case PutEdge(n, at, eventID) => WithEdge(g, n, at, eventID)
  }

  function ApplyAll(g: View, us: seq<Upsert>): View
    decreases |us|
  {
    if us == [] then g else Apply(ApplyAll(g, us[..|us| - 1]), us[|us| - 1])
  }

  lemma {:induction false} ApplyAllSplits(g: View, us: seq<Upsert>, vs: seq<Upsert>)
    ensures ApplyAll(g, us + vs) == ApplyAll(ApplyAll(g, us), vs)
    decreases |vs|
  {
    if vs == [] {
      assert us + vs == us;
    } else {
      var n := |vs| - 1;
      assert (us + vs)[..|us + vs| - 1] == us + vs[..n];
      ApplyAllSplits(g, us, vs[..n]);
    }
  }

  // -------------------------------------------------------------------------
  // Growth
  // -------------------------------------------------------------------------

  /** What a later observation may do to a known entity. */
  predicate EntityGrows(a: EntityVal, b: EntityVal) {
    && a.id == b.id && a.typ == b.typ && a.key == b.key
    && (a.name != "" ==> b.name != "")
    && Rank(a.criticality) <= Rank(b.criticality)
    && (a.observed ==> b.observed)
    && a.attributes.Keys <= b.attributes.Keys
    && a.lastSeen <= b.lastSeen
  }

  predicate EdgeGrows(a: EdgeVal, b: EdgeVal) {
    && a.lastSeen <= b.lastSeen
    && a.eventIDs <= b.eventIDs
  }

  /** Everything `g` knows, `g'` still knows and never rates lower. */
  ghost predicate Grows(g: View, g': View) {
    && (forall id :: id in g.entities ==> id in g'.entities && EntityGrows(g.entities[id], g'.entities[id]))
    && (forall n :: n in g.edges ==> n in g'.edges && EdgeGrows(g.edges[n], g'.edges[n]))
  }

  lemma GrowsTransitive(a: View, b: View, c: View)
    requires Grows(a, b) && Grows(b, c)
    ensures Grows(a, c)
  {
    forall id | id in a.entities
      ensures id in c.entities && EntityGrows(a.entities[id], c.entities[id])
    {
      assert id in b.entities;
    }
    forall n | n in a.edges ensures n in c.edges && EdgeGrows(a.edges[n], c.edges[n]) {
      assert n in b.edges;
    }
  }

  lemma ApplyGrows(g: View, u: Upsert)
    ensures Grows(g, Apply(g, u))
  {
  }

  /** No run of upserts ever drops a node or edge, or downgrades one. */
  lemma {:induction false} RunGrows(g: View, us: seq<Upsert>)
    ensures Grows(g, ApplyAll(g, us))
    decreases |us|
  {
    if us != [] {
      var n := |us| - 1;
      RunGrows(g, us[..n]);
      ApplyGrows(ApplyAll(g, us[..n]), us[n]);
      GrowsTransitive(g, ApplyAll(g, us[..n]), ApplyAll(g, us));
    }
  }

  // -------------------------------------------------------------------------
  // Well-formedness of every reachable graph
  // -------------------------------------------------------------------------

  predicate EdgeOK(n: EdgeName, e: EdgeVal) {
    && !Degenerate(n)
    && e.firstSeen <= e.lastSeen
    && |e.eventIDs| <= MAX_EDGE_EVIDENCE
    && (forall i, j :: 0 <= i < j < |e.eventIDs| ==> e.eventIDs[i] != e.eventIDs[j])
  }

  ghost predicate WellFormed(g: View) {
    && (forall id :: id in g.entities ==> id != "" && g.entities[id].id == id && g.entities[id].criticality != "")
    && (forall n :: n in g.edges ==> EdgeOK(n, g.edges[n]))
  }

  lemma ApplyKeepsWellFormed(g: View, u: Upsert)
    requires WellFormed(g)
    ensures WellFormed(Apply(g, u))
  {
  }

  /** Every graph built by upserts alone is well formed. */
  lemma {:induction false} ReachableGraphsWellFormed(us: seq<Upsert>)
    ensures WellFormed(ApplyAll(EMPTY, us))
    decreases |us|
  {
    if us != [] {
      var n := |us| - 1;
      ReachableGraphsWellFormed(us[..n]);
      ApplyKeepsWellFormed(ApplyAll(EMPTY, us[..n]), us[n]);
    }
  }

  /** Both ends of every edge are known entities. */
  ghost predicate Closed(g: View) {
    forall n :: n in g.edges ==> n.from in g.entities && n.to in g.entities
  }
}

/** Isolation over whole runs. A caller keeps every record it ever made, passed to
    the store or got back from it, and rewrites any of them between any two calls,
    through every slice, map and pointer it can reach. The store must behave as if
    only values had ever crossed its boundary: `Steps` is that value semantics, with
    no references in it, and `Interleave` runs the real records against it. */
module Isolation {
  import opened Events
  import opened Incidents
  import opened Audit
  import opened Pages
  import opened Store

  /** `k` and `js` name records the caller kept, in the order it came by them. */
  datatype Command =
    | MakeEntry(entry: EntryVal)
    | RewriteEntry(k: nat, entry: EntryVal)
    | AppendEntry(k: nat)
    | ReadLog(limit: int, offset: int)
    | MakeIncident(incident: IncidentVal)
    | RewriteIncident(k: nat, incident: IncidentVal)
    | SaveIncident(k: nat)
    | FetchIncident(id: string)
    | ReadIncidents(filter: Filter, limit: int, offset: int)
    | MakeAction(action: ActionVal)
    | RewriteAction(k: nat, action: ActionVal)
    | SaveAction(k: nat, js: seq<nat>)
    | FetchAction(id: string)
    | ReadActions(incidentID: string, limit: int, offset: int)

  /** What the caller's records and the store say. */
  datatype Values = Values(entries: seq<EntryVal>, incidents: seq<IncidentVal>, actions: seq<ActionVal>, stored: Stored)

  datatype Stored = Stored(log: seq<EntryVal>, held: map<string, IncidentVal>, decided: map<string, ActionVal>, order: seq<string>)

  // -------------------------------------------------------------------------
  // Value semantics
  // -------------------------------------------------------------------------

  /** Rewriting fills in every field; a nil details map stays nil. */
  function Rewritten(v: EntryVal, w: EntryVal): EntryVal {
    w.(details := if v.details.None? then None else Some(if w.details.Some? then w.details.value else map[]))
  }

  /** Where `k` occurs last, or -1. */
  function LastOf(js: seq<nat>, k: nat): (i: int)
    ensures -1 <= i < |js|
    ensures i >= 0 ==> js[i] == k
    ensures forall m :: i < m < |js| ==> js[m] != k
  {
    if js == [] then -1 else if js[|js| - 1] == k then |js| - 1 else LastOf(js[..|js| - 1], k)
  }

  predicate Within(js: seq<nat>, n: nat) {
    forall i :: 0 <= i < |js| ==> js[i] < n
  }

  function Picked<T>(s: seq<T>, js: seq<nat>): seq<T>
    requires Within(js, |s|)
  {
    seq(|js|, i requires 0 <= i < |js| => s[js[i]])
  }

  /** The caller's entries after those at `js` were appended to a log of length `base`. */
  function Restamped(entries: seq<EntryVal>, js: seq<nat>, base: nat): seq<EntryVal> {
    seq(|entries|, k requires 0 <= k < |entries| => RestampedAt(entries[k], js, k, base))
  }

  function RestampedAt(v: EntryVal, js: seq<nat>, k: nat, base: nat): EntryVal {
    if k in js then Stamped(v, base + LastOf(js, k) + 1) else v
  }

  function LoggedWith(log: seq<EntryVal>, vals: seq<EntryVal>): seq<EntryVal> {
    log + seq(|vals|, i requires 0 <= i < |vals| => Stamped(vals[i], |log| + i + 1))
  }

  /** Whether the store would take an action together with entries. */
  predicate Accepts(s: Values, k: nat, js: seq<nat>) {
    && k < |s.actions| && Within(js, |s.entries|)
    && s.actions[k].id != "" && forall v :: v in Picked(s.entries, js) ==> v.id != ""
  }

  function Appended(s: Values, k: nat): Values {
    if k < |s.entries| && s.entries[k].id != "" then
      var stamped := Stamped(s.entries[k], |s.stored.log| + 1);
      s.(entries := s.entries[k := stamped], stored := s.stored.(log := s.stored.log + [stamped]))
    else s
  }

  function IncidentSaved(s: Values, k: nat): Values {
    if k < |s.incidents| && s.incidents[k].id != "" then
      s.(stored := s.stored.(held := s.stored.held[s.incidents[k].id := s.incidents[k]]))
    else s
  }

  /** What the store holds once it has taken an action together with entries. */
  function Taken(st: Stored, a: ActionVal, vals: seq<EntryVal>): Stored {
    st.(log := LoggedWith(st.log, vals), decided := st.decided[a.id := a], order := OrderedWith(st.order, a.id))
  }

  function ActionSaved(s: Values, k: nat, js: seq<nat>): Values {
    if Accepts(s, k, js) then
      s.(entries := Restamped(s.entries, js, |s.stored.log|), stored := Taken(s.stored, s.actions[k], Picked(s.entries, js)))
    else s
  }

  /** One command, where only values cross the store's boundary. */
  ghost predicate Steps(s: Values, c: Command, n: Values) {
    match c
    case MakeEntry(v) => n == s.(entries := s.entries + [v])
    case RewriteEntry(k, v) => n == if k < |s.entries| then s.(entries := s.entries[k := Rewritten(s.entries[k], v)]) else s
    case AppendEntry(k) => n == Appended(s, k)
    case ReadLog(limit, offset) => n == s.(entries := s.entries + Page(s.stored.log, limit, offset))
    case MakeIncident(v) => n == s.(incidents := s.incidents + [v])
    case RewriteIncident(k, v) => n == if k < |s.incidents| then s.(incidents := s.incidents[k := v]) else s
    case SaveIncident(k) => n == IncidentSaved(s, k)
    case FetchIncident(id) => n == if id in s.stored.held then s.(incidents := s.incidents + [s.stored.held[id]]) else s
    case ReadIncidents(filter, limit, offset) =>
      exists listing :: IncidentListing(s.stored.held, filter, listing) && n == s.(incidents := s.incidents + Page(listing, limit, offset))
    case MakeAction(v) => n == s.(actions := s.actions + [v])
    case RewriteAction(k, v) => n == if k < |s.actions| then s.(actions := s.actions[k := v]) else s
    case SaveAction(k, js) => n == ActionSaved(s, k, js)
    case FetchAction(id) => n == if id in s.stored.decided then s.(actions := s.actions + [s.stored.decided[id]]) else s
    case ReadActions(incidentID, limit, offset) =>
      n == s.(actions := s.actions + Page(ActionListing(s.stored.order, s.stored.decided, incidentID), limit, offset))
  }

  /** A script has at most one meaning. */
  lemma StepsOnce(s: Values, c: Command, n: Values, m: Values)
    requires Steps(s, c, n) && Steps(s, c, m)
    ensures n == m
  {
    hide IncidentListing, Page;
    if c.ReadIncidents? {
      var a :| IncidentListing(s.stored.held, c.filter, a) && n == s.(incidents := s.incidents + Page(a, c.limit, c.offset));
      var b :| IncidentListing(s.stored.held, c.filter, b) && m == s.(incidents := s.incidents + Page(b, c.limit, c.offset));
      IncidentListingUnique(s.stored.held, c.filter, a, b);
    }
  }

  ghost predicate Trace(ss: seq<Values>, script: seq<Command>) {
    && |ss| == |script| + 1
    && (forall i :: 0 <= i < |script| ==> Steps(ss[i], script[i], ss[i + 1]))
  }

  /** The commands that store something. */
  predicate Writes(c: Command) {
    c.AppendEntry? || c.SaveIncident? || c.SaveAction?
  }

  lemma StepStores(s: Values, c: Command, n: Values)
    requires Steps(s, c, n)
    ensures s.stored.log <= n.stored.log
    ensures !Writes(c) ==> n.stored == s.stored
  {
    hide IncidentListing, Page;
  }

  /** The log is append-only, and however records are made, rewritten, fetched and
      listed in between, what is stored changes through saves and appends alone. */
  lemma {:induction false} OnlySavesWrite(ss: seq<Values>, script: seq<Command>, i: nat, j: nat)
    requires Trace(ss, script) && i <= j < |ss|
    ensures ss[i].stored.log <= ss[j].stored.log
    ensures (forall k :: i <= k < j ==> !Writes(script[k])) ==> ss[j].stored == ss[i].stored
    decreases j - i
  {
    hide Steps;
    if i < j {
      OnlySavesWrite(ss, script, i, j - 1);
      assert Steps(ss[j - 1], script[j - 1], ss[j - 1 + 1]);
      StepStores(ss[j - 1], script[j - 1], ss[j]);
    }
  }

  // -------------------------------------------------------------------------
  // Rewriting a record through everything it reaches
  // -------------------------------------------------------------------------

  method ScribbleRows(inc: Incident)
    requires inc.Valid()
    modifies inc.repr
    ensures unchanged(inc) && unchanged(inc.findings) && inc.Valid()
  {
    for i := 0 to |inc.findings.rows|
      invariant unchanged(inc) && unchanged(inc.findings) && inc.Valid()
    {
      var row := inc.findings.rows[i];
      assert row in inc.findings.rows;
      row.entityIDs.items, row.eventIDs.items := ["scribbled"], ["scribbled"];
    }
  }

  method ScribbleFields(inc: Incident, v: IncidentVal)
    requires inc.Valid()
    modifies inc.repr
    ensures inc.Valid() && inc.repr == old(inc.repr) && inc.Val() == v.(findings := old(inc.Val()).findings)
  {
    hide RowVals, RowCells;
    inc.evidence.items, inc.reachable.items := v.evidence, v.blastRadius.reachable;
    inc.blastRadius := v.blastRadius.(reachable := []);
    inc.id, inc.status, inc.primaryIdentity := v.id, v.status, v.primaryIdentity;
    inc.firstSeen, inc.lastSeen, inc.updatedAt := v.firstSeen, v.lastSeen, v.updatedAt;
    inc.riskScore, inc.severity, inc.confidence := v.riskScore, v.severity, v.confidence;
  }

  /** Every slice in place, the innermost ones too, and every field. */
  method ScribbleIncident(inc: Incident, v: IncidentVal)
    requires inc.Valid()
    modifies inc.repr
    ensures inc.Valid() && fresh(inc.repr - old(inc.repr)) && inc.Val() == v
  {
    hide Incident.Val;
    ScribbleRows(inc);
    inc.WriteFindings(v.findings);
    ScribbleFields(inc, v);
  }

  method ScribblePointers(a: Action)
    modifies a.Footprint() - {a}
    ensures unchanged(a)
  {
    if a.decision != null {
      a.decision.reasons.items, a.decision.plain := ["scribbled"], a.decision.plain.(allow := true, effect := "allow");
    }
    if a.simulated != null {
      a.simulated.affected.items, a.simulated.plain := ["scribbled"], a.simulated.plain.(description := "scribbled");
    }
    if a.executedAt != null {
      a.executedAt.v := 0;
    }
  }

  method ReplaceAction(a: Action, v: ActionVal)
    modifies a
    ensures a.Val() == v && fresh(a.Footprint() - {a})
  {
    hide DecisionCell.Val, EffectCell.Val;
    var other := new Action(v);
    a.scalars, a.decision, a.simulated, a.executedAt := other.scalars, other.decision, other.simulated, other.executedAt;
    assert a.Footprint() - {a} == other.Footprint() - {other};
  }

  /** Through the pointers and the slices behind them, then all of it replaced. */
  method ScribbleAction(a: Action, v: ActionVal)
    modifies a.Footprint()
    ensures a.Val() == v && fresh(a.Footprint() - {a})
  {
    ScribblePointers(a);
    hide Action.Footprint, Action.Val;
    ReplaceAction(a, v);
  }

  /** In place, and through the shared details map. */
  method ScribbleEntry(e: Entry, v: EntryVal)
    modifies e.Footprint()
    ensures e.Val() == Rewritten(old(e.Val()), v)
    ensures e.Footprint() == old(e.Footprint())
  {
    e.id, e.sequence, e.timestamp, e.actor, e.action := v.id, v.sequence, v.timestamp, v.actor, v.action;
    e.subjectType, e.subjectID, e.outcome, e.reason := v.subjectType, v.subjectID, v.outcome, v.reason;
    if e.details != null {
      e.details.m := if v.details.Some? then v.details.value else map[];
    }
  }

  /** Rewriting one record is invisible in the others: they share nothing. */
  method OverwriteEntry(entries: seq<Entry>, ghost vals: seq<EntryVal>, ghost pool: set<object>, k: nat, v: EntryVal)
    requires EntriesApart(entries, vals, pool) && k < |entries|
    modifies pool
    ensures EntriesApart(entries, vals[k := Rewritten(vals[k], v)], pool)
  {
    hide Entry.Val, Entry.Footprint;
    assert forall i :: 0 <= i < |entries| && i != k ==> entries[i].Footprint() !! entries[k].Footprint();
    ScribbleEntry(entries[k], v);
    assert forall i :: 0 <= i < |entries| && i != k ==> entries[i].Val() == vals[i];
    assert forall i :: 0 <= i < |entries| ==> entries[i].Footprint() == old(entries[i].Footprint());
  }

  method OverwriteIncident(incidents: seq<Incident>, ghost vals: seq<IncidentVal>, ghost pool: set<object>, k: nat, v: IncidentVal)
    returns (ghost pool': set<object>)
    requires IncidentsApart(incidents, vals, pool) && k < |incidents|
    modifies pool
    ensures IncidentsApart(incidents, vals[k := v], pool') && pool <= pool' && fresh(pool' - pool)
  {
    hide Incident.Val, Incident.Valid;
    assert forall i :: 0 <= i < |incidents| && i != k ==> incidents[i].repr !! incidents[k].repr;
    forall i | 0 <= i < |incidents|
      ensures incidents[i].Valid() && incidents[i] in incidents[i].repr && incidents[i].Val() == vals[i] && incidents[i].repr <= pool
    {
      IncidentApart(incidents, vals, pool, i);
    }
    ScribbleIncident(incidents[k], v);
    pool' := pool + incidents[k].repr;
    assert forall i :: 0 <= i < |incidents| && i != k ==> incidents[i].repr == old(incidents[i].repr);
    assert forall i :: 0 <= i < |incidents| && i != k ==> incidents[i].Valid() && incidents[i].Val() == vals[i];
  }

  method OverwriteAction(actions: seq<Action>, ghost vals: seq<ActionVal>, ghost pool: set<object>, k: nat, v: ActionVal)
    returns (ghost pool': set<object>)
    requires ActionsApart(actions, vals, pool) && k < |actions|
    modifies pool
    ensures ActionsApart(actions, vals[k := v], pool') && pool <= pool' && fresh(pool' - pool)
  {
    hide Action.Val, Action.Footprint;
    assert forall i :: 0 <= i < |actions| && i != k ==> actions[i].Footprint() !! actions[k].Footprint();
    forall i | 0 <= i < |actions|
      ensures actions[i].Val() == vals[i] && actions[i].Footprint() <= pool
      ensures var a := actions[i];
        (a.decision == null || a.decision in a.Footprint()) && (a.simulated == null || a.simulated in a.Footprint())
    {
      actions[i].FootprintSupported();
      ActionApart(actions, vals, pool, i);
    }
    ScribbleAction(actions[k], v);
    pool' := pool + actions[k].Footprint();
    assert forall i :: 0 <= i < |actions| && i != k ==> actions[i].Footprint() == old(actions[i].Footprint());
    assert forall i :: 0 <= i < |actions| && i != k ==> actions[i].Val() == vals[i];
    StillApart(actions, vals[k := v], pool');
  }

  lemma StillApart(actions: seq<Action>, vals: seq<ActionVal>, pool: set<object>)
    requires |vals| == |actions|
    requires forall i :: 0 <= i < |actions| ==> actions[i].Val() == vals[i] && actions[i].Footprint() <= pool
    requires forall i, j :: 0 <= i < j < |actions| ==> actions[i].Footprint() !! actions[j].Footprint()
    ensures ActionsApart(actions, vals, pool)
  {
    hide Action.Val;
    forall i | 0 <= i < |actions| ensures actions[i].Held(vals[i], pool) {
      assert actions[i].Footprint() <= pool;
    }
  }

  // -------------------------------------------------------------------------
  // The commands on real records
  // -------------------------------------------------------------------------

  ghost function Holds(store: MemoryStore): Stored
    reads store
  {
    Stored(store.log, store.held, store.decided, store.actionOrder)
  }

  /** The store says `st` and holds nothing of the caller's. */
  ghost predicate Agrees(store: MemoryStore, st: Stored, pool: set<object>)
    reads store, store.Repr()
  {
    store.Valid() && Holds(store) == st && pool !! store.Repr() && store !in pool
  }

  predicate OnIncidents(c: Command) {
    c.MakeIncident? || c.RewriteIncident? || c.SaveIncident? || c.FetchIncident? || c.ReadIncidents?
  }

  method SaveMyIncident(store: MemoryStore, incidents: seq<Incident>, ghost s: Values, ghost pool: set<object>, k: nat)
    requires IncidentsApart(incidents, s.incidents, pool) && Agrees(store, s.stored, pool)
    modifies store
    ensures Agrees(store, IncidentSaved(s, k).stored, pool) && fresh(store.Repr() - old(store.Repr()))
  {
    hide MemoryStore.Valid, IncidentsApart, Incident.Val;
    if k < |incidents| {
      IncidentApart(incidents, s.incidents, pool, k);
      incidents[k].HeldSays(s.incidents[k], pool);
      var ok := store.SaveIncident(incidents[k]);
    }
  }

  method FetchMyIncident(store: MemoryStore, incidents: seq<Incident>, ghost s: Values, ghost pool: set<object>, id: string)
    returns (more: seq<Incident>, ghost pool': set<object>)
    requires IncidentsApart(incidents, s.incidents, pool) && Agrees(store, s.stored, pool)
    ensures Agrees(store, s.stored, pool') && pool <= pool' && fresh(pool' - pool)
    ensures IncidentsApart(more, if id in s.stored.held then s.incidents + [s.stored.held[id]] else s.incidents, pool')
  {
    hide MemoryStore.Valid, IncidentsApart, Incident.Val;
    var r := store.GetIncident(id);
    assert unchanged(store) && unchanged(store.Repr());
    more, pool' := incidents, pool;
    if r.Some? {
      assert r.value.Held(s.stored.held[id], r.value.repr);
      OneMoreIncidentApart(incidents, s.incidents, pool, r.value, s.stored.held[id]);
      more, pool' := incidents + [r.value], pool + r.value.repr;
    }
  }

  method ReadMyIncidents(store: MemoryStore, incidents: seq<Incident>, ghost s: Values, ghost pool: set<object>, c: Command)
    returns (more: seq<Incident>, ghost pool': set<object>, ghost n: Values)
    requires c.ReadIncidents?
    requires IncidentsApart(incidents, s.incidents, pool) && Agrees(store, s.stored, pool)
    ensures Agrees(store, s.stored, pool') && pool <= pool' && fresh(pool' - pool)
    ensures Steps(s, c, n) && n == s.(incidents := n.incidents) && IncidentsApart(more, n.incidents, pool')
  {
    hide MemoryStore.Valid, IncidentsApart, IncidentListing, Page;
    var page, total, pages, listing := store.ListIncidents(c.filter, c.limit, c.offset);
    assert unchanged(store) && unchanged(store.Repr());
    JoinIncidentsApart(incidents, s.incidents, pool, page, Page(listing, c.limit, c.offset), pages);
    more, pool' := incidents + page, pool + pages;
    n := s.(incidents := s.incidents + Page(listing, c.limit, c.offset));
  }

  method PerformOnIncidents(store: MemoryStore, incidents: seq<Incident>, ghost s: Values, ghost pool: set<object>, c: Command)
    returns (more: seq<Incident>, ghost pool': set<object>, ghost n: Values)
    requires OnIncidents(c)
    requires IncidentsApart(incidents, s.incidents, pool) && Agrees(store, s.stored, pool)
    modifies store, pool
    ensures Steps(s, c, n) && n.entries == s.entries && n.actions == s.actions
    ensures Agrees(store, n.stored, pool') && fresh(store.Repr() - old(store.Repr()))
    ensures IncidentsApart(more, n.incidents, pool') && pool <= pool' && fresh(pool' - pool)
  {
    hide MemoryStore.Valid, IncidentListing, Page;
    more, pool', n := incidents, pool, s;
    if c.MakeIncident? {
      more, pool' := NewIncident(incidents, s.incidents, pool, c.incident);
      n := s.(incidents := s.incidents + [c.incident]);
    } else if c.RewriteIncident? {
      if c.k < |incidents| {
        pool' := OverwriteIncident(incidents, s.incidents, pool, c.k, c.incident);
        n := s.(incidents := s.incidents[c.k := c.incident]);
      }
    } else if c.SaveIncident? {
      SaveMyIncident(store, incidents, s, pool, c.k);
      n := IncidentSaved(s, c.k);
    } else if c.FetchIncident? {
      more, pool' := FetchMyIncident(store, incidents, s, pool, c.id);
      n := if c.id in s.stored.held then s.(incidents := s.incidents + [s.stored.held[c.id]]) else s;
    } else {
      more, pool', n := ReadMyIncidents(store, incidents, s, pool, c);
    }
  }

  predicate OnEntries(c: Command) {
    c.MakeEntry? || c.RewriteEntry? || c.AppendEntry? || c.ReadLog?
  }

  method AppendMyEntry(store: MemoryStore, entries: seq<Entry>, ghost s: Values, ghost pool: set<object>, k: nat)
    requires EntriesApart(entries, s.entries, pool) && Agrees(store, s.stored, pool)
    modifies store, pool
    ensures var n := Appended(s, k); Agrees(store, n.stored, pool) && EntriesApart(entries, n.entries, pool)
    ensures fresh(store.Repr() - old(store.Repr()))
  {
    hide Entry.Val, Entry.Footprint, MemoryStore.Valid, MemoryStore.Repr;
    if k < |entries| {
      var e := entries[k];
      EntryApart(entries, s.entries, pool, k);
      e.HeldSays(s.entries[k], pool);
      assert forall i :: 0 <= i < |entries| && i != k ==> entries[i].Footprint() !! entries[k].Footprint() && entries[i] != e;
      var ok := store.Append(e);
      assert forall i :: 0 <= i < |entries| ==> entries[i].Footprint() == old(entries[i].Footprint());
      assert forall i :: 0 <= i < |entries| && i != k ==> entries[i].Val() == s.entries[i];
    }
  }

  method PerformOnEntries(store: MemoryStore, entries: seq<Entry>, ghost s: Values, ghost pool: set<object>, c: Command)
    returns (more: seq<Entry>, ghost pool': set<object>, ghost n: Values)
    requires OnEntries(c)
    requires EntriesApart(entries, s.entries, pool) && Agrees(store, s.stored, pool)
    modifies store, pool
    ensures Steps(s, c, n) && n.incidents == s.incidents && n.actions == s.actions
    ensures Agrees(store, n.stored, pool') && fresh(store.Repr() - old(store.Repr()))
    ensures EntriesApart(more, n.entries, pool') && pool <= pool' && fresh(pool' - pool)
  {
    hide MemoryStore.Valid, Page;
    more, pool', n := entries, pool, s;
    if c.MakeEntry? {
      more, pool' := NewEntry(entries, s.entries, pool, c.entry);
      n := s.(entries := s.entries + [c.entry]);
    } else if c.RewriteEntry? {
      if c.k < |entries| {
        OverwriteEntry(entries, s.entries, pool, c.k, c.entry);
        n := s.(entries := s.entries[c.k := Rewritten(s.entries[c.k], c.entry)]);
      }
    } else if c.AppendEntry? {
      AppendMyEntry(store, entries, s, pool, c.k);
      n := Appended(s, c.k);
    } else {
      more, pool', n := ReadMyLog(store, entries, s, pool, c);
    }
  }

  method ReadMyLog(store: MemoryStore, entries: seq<Entry>, ghost s: Values, ghost pool: set<object>, c: Command)
    returns (more: seq<Entry>, ghost pool': set<object>, ghost n: Values)
    requires c.ReadLog?
    requires EntriesApart(entries, s.entries, pool) && Agrees(store, s.stored, pool)
    ensures Agrees(store, s.stored, pool') && pool <= pool' && fresh(pool' - pool)
    ensures Steps(s, c, n) && n == s.(entries := n.entries) && EntriesApart(more, n.entries, pool')
  {
    hide MemoryStore.Valid, EntriesApart, Page;
    var page, total, pages := store.List(c.limit, c.offset);
    assert unchanged(store) && unchanged(store.Repr());
    JoinEntriesApart(entries, s.entries, pool, page, Page(s.stored.log, c.limit, c.offset), pages);
    more, pool' := entries + page, pool + pages;
    n := s.(entries := s.entries + Page(s.stored.log, c.limit, c.offset));
  }

  predicate OnActions(c: Command) {
    c.MakeAction? || c.RewriteAction? || c.FetchAction? || c.ReadActions?
  }

  method FetchMyAction(store: MemoryStore, actions: seq<Action>, ghost s: Values, ghost pool: set<object>, id: string)
    returns (more: seq<Action>, ghost pool': set<object>)
    requires ActionsApart(actions, s.actions, pool) && Agrees(store, s.stored, pool)
    ensures Agrees(store, s.stored, pool') && pool <= pool' && fresh(pool' - pool)
    ensures ActionsApart(more, if id in s.stored.decided then s.actions + [s.stored.decided[id]] else s.actions, pool')
  {
    hide MemoryStore.Valid, ActionsApart, Action.Val;
    var r := store.GetAction(id);
    assert unchanged(store) && unchanged(store.Repr());
    more, pool' := actions, pool;
    if r.Some? {
      assert r.value.Held(s.stored.decided[id], r.value.Footprint());
      OneMoreActionApart(actions, s.actions, pool, r.value, s.stored.decided[id]);
      more, pool' := actions + [r.value], pool + r.value.Footprint();
    }
  }

  method ReadMyActions(store: MemoryStore, actions: seq<Action>, ghost s: Values, ghost pool: set<object>, c: Command)
    returns (more: seq<Action>, ghost pool': set<object>, ghost n: Values)
    requires c.ReadActions?
    requires ActionsApart(actions, s.actions, pool) && Agrees(store, s.stored, pool)
    ensures Agrees(store, s.stored, pool') && pool <= pool' && fresh(pool' - pool)
    ensures Steps(s, c, n) && n == s.(actions := n.actions) && ActionsApart(more, n.actions, pool')
  {
    hide MemoryStore.Valid, ActionsApart, ActionListing, Page;
    ghost var listing := ActionListing(s.stored.order, s.stored.decided, c.incidentID);
    var page, total, pages := store.ListActions(c.incidentID, c.limit, c.offset);
    assert unchanged(store) && unchanged(store.Repr());
    JoinActionsApart(actions, s.actions, pool, page, Page(listing, c.limit, c.offset), pages);
    more, pool' := actions + page, pool + pages;
    n := s.(actions := s.actions + Page(listing, c.limit, c.offset));
  }

  method PerformOnActions(store: MemoryStore, actions: seq<Action>, ghost s: Values, ghost pool: set<object>, c: Command)
    returns (more: seq<Action>, ghost pool': set<object>, ghost n: Values)
    requires OnActions(c)
    requires ActionsApart(actions, s.actions, pool) && Agrees(store, s.stored, pool)
    modifies pool
    ensures Steps(s, c, n) && n.incidents == s.incidents && n.entries == s.entries && n.stored == s.stored
    ensures Agrees(store, n.stored, pool')
    ensures ActionsApart(more, n.actions, pool') && pool <= pool' && fresh(pool' - pool)
  {
    hide MemoryStore.Valid, Page, ActionListing;
    more, pool', n := actions, pool, s;
    if c.MakeAction? {
      more, pool' := NewAction(actions, s.actions, pool, c.action);
      n := s.(actions := s.actions + [c.action]);
    } else if c.RewriteAction? {
      if c.k < |actions| {
        pool' := OverwriteAction(actions, s.actions, pool, c.k, c.action);
        n := s.(actions := s.actions[c.k := c.action]);
      }
    } else if c.FetchAction? {
      more, pool' := FetchMyAction(store, actions, s, pool, c.id);
      n := if c.id in s.stored.decided then s.(actions := s.actions + [s.stored.decided[c.id]]) else s;
    } else {
      more, pool', n := ReadMyActions(store, actions, s, pool, c);
    }
  }

  lemma SameLast(entries: seq<Entry>, js: seq<nat>, k: nat)
    requires Within(js, |entries|) && k < |entries|
    requires forall i, j :: 0 <= i < j < |entries| ==> entries[i] != entries[j]
    ensures LastAt(Picked(entries, js), entries[k]) == LastOf(js, k)
    ensures entries[k] in Picked(entries, js) <==> k in js
  {
    var chosen := Picked(entries, js);
    assert forall m :: 0 <= m < |js| ==> (chosen[m] == entries[k] <==> js[m] == k);
  }

  lemma LoggedIs(log: seq<EntryVal>, vals: seq<EntryVal>, log': seq<EntryVal>)
    requires Logged(log, vals, log')
    ensures log' == LoggedWith(log, vals)
  {
  }

  /** What each record said before. */
  lemma AllSay(entries: seq<Entry>, vals: seq<EntryVal>, pool: set<object>)
    requires EntriesApart(entries, vals, pool)
    ensures forall i :: 0 <= i < |entries| ==>
      entries[i].Val() == vals[i] && entries[i].id == vals[i].id && entries[i].Footprint() <= pool
    ensures forall i, j :: 0 <= i < j < |entries| ==> entries[i] != entries[j] && entries[i].Footprint() !! entries[j].Footprint()
  {
    forall i | 0 <= i < |entries|
      ensures entries[i].Val() == vals[i] && entries[i].id == vals[i].id && entries[i].Footprint() <= pool
    {
      entries[i].HeldSays(vals[i], pool);
    }
  }

  /** Different records, saying `vals`, that reach nothing of `all`. */
  ghost predicate AllOutside(entries: seq<Entry>, vals: seq<EntryVal>, all: set<object>): (outside: bool)
    reads entries, set e, o | e in entries && o in e.Footprint() :: o
    ensures outside ==> |vals| == |entries|
  {
    && |vals| == |entries|
    && (forall i :: 0 <= i < |entries| ==> entries[i].Val() == vals[i] && entries[i].id == vals[i].id)
    && (forall i :: 0 <= i < |entries| ==> entries[i].Footprint() !! all)
    && (forall i, j :: 0 <= i < j < |entries| ==> entries[i] != entries[j])
  }

  lemma ChosenAt(entries: seq<Entry>, vals: seq<EntryVal>, js: seq<nat>, k: nat)
    requires |vals| == |entries| && Within(js, |entries|) && k in js
    ensures exists i :: 0 <= i < |js| && Picked(entries, js)[i] == entries[k] && Picked(vals, js)[i] == vals[k]
  {
    var i :| 0 <= i < |js| && js[i] == k;
    assert Picked(entries, js)[i] == entries[k] && Picked(vals, js)[i] == vals[k];
  }

  /** Writes entries with an action, and accounts for all that is stored. */
  method SaveThese(store: MemoryStore, action: Action, chosen: seq<Entry>, ghost said: seq<EntryVal>) returns (ok: bool)
    requires |said| == |chosen| && forall i :: 0 <= i < |chosen| ==> chosen[i].Val() == said[i] && chosen[i].id == said[i].id
    requires forall e :: e in chosen ==> e.Footprint() !! store.Repr()
    requires store.Valid() && action.Footprint() !! store.Repr()
    modifies store, (set e | e in chosen)`sequence
    ensures store.Valid() && fresh(store.Repr() - old(store.Repr()))
    ensures ok <==> action.scalars.id != "" && forall v :: v in said ==> v.id != ""
    ensures Holds(store) == if ok then Taken(old(Holds(store)), old(action.Val()), said) else old(Holds(store))
    ensures forall i :: 0 <= i < |chosen| ==>
      chosen[i].Val() == if ok then Stamped(said[i], |old(store.log)| + LastAt(chosen, chosen[i]) + 1) else said[i]
  {
    hide MemoryStore.Valid, Action.Val, Action.Footprint, Entry.Val, LastAt, LastOf, Stamped, Logged, LoggedWith;
    ghost var before := store.log;
    ok := store.SaveActionWithAudit(action, chosen, said);
    if ok {
      LoggedIs(before, said, store.log);
    }
  }

  /** Writes the chosen entries with an action; each keeps its number. */
  method WriteChosen(store: MemoryStore, action: Action, entries: seq<Entry>, ghost vals: seq<EntryVal>, js: seq<nat>)
    returns (ok: bool)
    requires AllOutside(entries, vals, store.Repr() + {store}) && Within(js, |entries|)
    requires store.Valid() && action.Footprint() !! store.Repr()
    modifies store, set e | e in entries
    ensures store.Valid() && fresh(store.Repr() - old(store.Repr()))
    ensures ok <==> action.scalars.id != "" && forall v :: v in Picked(vals, js) ==> v.id != ""
    ensures Holds(store) == if ok then Taken(old(Holds(store)), old(action.Val()), Picked(vals, js)) else old(Holds(store))
    ensures forall k :: 0 <= k < |entries| ==> entries[k].details == old(entries[k].details)
    ensures forall k :: 0 <= k < |entries| ==>
      entries[k].Val() == if ok then RestampedAt(vals[k], js, k, |old(store.log)|) else vals[k]
  {
    hide MemoryStore.Valid, Action.Val, Action.Footprint, Entry.Val, LastAt, LastOf, Stamped, Holds, Taken, LoggedWith;
    var chosen := Picked(entries, js);
    ghost var said := Picked(vals, js);
    assert forall i :: 0 <= i < |js| ==> chosen[i] == entries[js[i]] && said[i] == vals[js[i]];
    hide Picked;
    ok := SaveThese(store, action, chosen, said);
    forall k | 0 <= k < |entries|
      ensures entries[k].Val() == if ok then RestampedAt(vals[k], js, k, |old(store.log)|) else vals[k]
    {
      SameLast(entries, js, k);
      if k in js {
        ChosenAt(entries, vals, js, k);
      }
    }
  }

  /** The caller's records of each kind, and all that each kind reaches. */
  datatype Records = Records(entries: seq<Entry>, incidents: seq<Incident>, actions: seq<Action>)

  ghost predicate Mine(r: Records, s: Values, entries: set<object>, incidents: set<object>, actions: set<object>)
    reads entries, incidents, actions
  {
    && EntriesApart(r.entries, s.entries, entries)
    && IncidentsApart(r.incidents, s.incidents, incidents)
    && ActionsApart(r.actions, s.actions, actions)
    && entries !! incidents && entries !! actions && incidents !! actions
  }

  method SaveMyAction(store: MemoryStore, entries: seq<Entry>, actions: seq<Action>, ghost s: Values,
                      ghost ep: set<object>, ghost ap: set<object>, k: nat, js: seq<nat>)
    requires EntriesApart(entries, s.entries, ep) && ActionsApart(actions, s.actions, ap) && ep !! ap
    requires Agrees(store, s.stored, ep + ap)
    modifies store, ep
    ensures var n := ActionSaved(s, k, js); Agrees(store, n.stored, ep + ap) && EntriesApart(entries, n.entries, ep)
    ensures fresh(store.Repr() - old(store.Repr()))
  {
    hide MemoryStore.Valid, ActionsApart, Action.Val, Action.Footprint, Entry.Val, LoggedWith, LastOf, RestampedAt;
    if k < |actions| && Within(js, |entries|) {
      ActionApart(actions, s.actions, ap, k);
      actions[k].HeldSays(s.actions[k], ap);
      AllSay(entries, s.entries, ep);
      assert forall i :: 0 <= i < |entries| ==> entries[i] in ep;
      var ok := WriteChosen(store, actions[k], entries, s.entries, js);
      assert ok <==> Accepts(s, k, js);
      ghost var now := ActionSaved(s, k, js).entries;
      assert |now| == |entries| && forall i :: 0 <= i < |entries| ==> entries[i].Val() == now[i];
    }
  }

  method PerformSaveAction(store: MemoryStore, r: Records, ghost s: Values, ghost ep: set<object>, ghost ip: set<object>,
                           ghost ap: set<object>, c: Command) returns (ghost n: Values)
    requires c.SaveAction? && Mine(r, s, ep, ip, ap) && Agrees(store, s.stored, ep + ip + ap)
    modifies store, ep
    ensures Steps(s, c, n) && Mine(r, n, ep, ip, ap) && Agrees(store, n.stored, ep + ip + ap)
    ensures fresh(store.Repr() - old(store.Repr()))
  {
    hide MemoryStore.Valid, EntriesApart, IncidentsApart, ActionsApart, ActionSaved;
    SaveMyAction(store, r.entries, r.actions, s, ep, ap, c.k, c.js);
    n := ActionSaved(s, c.k, c.js);
    OnlyEntriesAndStore(s, c.k, c.js);
  }

  lemma OnlyEntriesAndStore(s: Values, k: nat, js: seq<nat>)
    ensures ActionSaved(s, k, js).incidents == s.incidents && ActionSaved(s, k, js).actions == s.actions
  {
    hide Restamped, LoggedWith;
  }

  method Perform(store: MemoryStore, r: Records, ghost s: Values, ghost ep: set<object>, ghost ip: set<object>,
                 ghost ap: set<object>, c: Command)
    returns (r': Records, ghost n: Values, ghost ep': set<object>, ghost ip': set<object>, ghost ap': set<object>)
    requires Mine(r, s, ep, ip, ap) && Agrees(store, s.stored, ep + ip + ap)
    modifies store, ep, ip, ap
    ensures Steps(s, c, n) && Mine(r', n, ep', ip', ap') && Agrees(store, n.stored, ep' + ip' + ap')
    ensures fresh(store.Repr() - old(store.Repr()))
    ensures fresh(ep' - ep) && fresh(ip' - ip) && fresh(ap' - ap)
  {
    hide MemoryStore.Valid, EntriesApart, IncidentsApart, ActionsApart, Steps;
    r', ep', ip', ap' := r, ep, ip, ap;
    if OnEntries(c) {
      var more;
      more, ep', n := PerformOnEntries(store, r.entries, s, ep, c);
      r' := r.(entries := more);
    } else if OnIncidents(c) {
      var more;
      more, ip', n := PerformOnIncidents(store, r.incidents, s, ip, c);
      r' := r.(incidents := more);
    } else if OnActions(c) {
      var more;
      more, ap', n := PerformOnActions(store, r.actions, s, ap, c);
      r' := r.(actions := more);
    } else {
      n := PerformSaveAction(store, r, s, ep, ip, ap, c);
    }
  }

  /** Any script, run on real records that the caller keeps and rewrites at will,
      leaves the store, and every one of those records, exactly where value
      semantics says. */
  method Interleave(store: MemoryStore, script: seq<Command>) returns (r: Records, ghost ss: seq<Values>)
    requires store.Valid()
    modifies store
    ensures store.Valid()
    ensures Trace(ss, script) && ss[0] == Values([], [], [], old(Holds(store))) && ss[|script|].stored == Holds(store)
    ensures |r.entries| == |ss[|script|].entries| && |r.incidents| == |ss[|script|].incidents|
    ensures |r.actions| == |ss[|script|].actions|
    ensures forall i :: 0 <= i < |r.entries| ==> r.entries[i].Val() == ss[|script|].entries[i]
    ensures forall i :: 0 <= i < |r.incidents| ==> r.incidents[i].Valid() && r.incidents[i].Val() == ss[|script|].incidents[i]
    ensures forall i :: 0 <= i < |r.actions| ==> r.actions[i].Val() == ss[|script|].actions[i]
  {
    hide MemoryStore.Valid, EntriesApart, IncidentsApart, ActionsApart, Steps;
    r := Records([], [], []);
    ss := [Values([], [], [], Holds(store))];
    ghost var ep: set<object>, ip: set<object>, ap: set<object> := {}, {}, {};
    NothingApart();
    for i := 0 to |script|
      invariant |ss| == i + 1 && ss[0] == Values([], [], [], old(Holds(store)))
      invariant Mine(r, ss[i], ep, ip, ap) && Agrees(store, ss[i].stored, ep + ip + ap)
      invariant forall j :: 0 <= j < i ==> Steps(ss[j], script[j], ss[j + 1])
      invariant fresh(ep) && fresh(ip) && fresh(ap)
    {
      ghost var n;
      r, n, ep, ip, ap := Perform(store, r, ss[i], ep, ip, ap, script[i]);
      ss := ss + [n];
    }
    MineSays(r, ss[|script|], ep, ip, ap);
  }

  lemma NothingApart()
    ensures EntriesApart([], [], {}) && IncidentsApart([], [], {}) && ActionsApart([], [], {})
  {
  }

  lemma MineSays(r: Records, s: Values, ep: set<object>, ip: set<object>, ap: set<object>)
    requires Mine(r, s, ep, ip, ap)
    ensures |r.entries| == |s.entries| && |r.incidents| == |s.incidents| && |r.actions| == |s.actions|
    ensures forall i :: 0 <= i < |r.entries| ==> r.entries[i].Val() == s.entries[i]
    ensures forall i :: 0 <= i < |r.incidents| ==> r.incidents[i].Valid() && r.incidents[i].Val() == s.incidents[i]
    ensures forall i :: 0 <= i < |r.actions| ==> r.actions[i].Val() == s.actions[i]
  {
    hide EntriesApart, IncidentsApart, ActionsApart, Entry.Val, Incident.Val, Action.Val;
    forall i | 0 <= i < |r.entries| ensures r.entries[i].Val() == s.entries[i] {
      EntryApart(r.entries, s.entries, ep, i);
    }
    forall i | 0 <= i < |r.incidents| ensures r.incidents[i].Valid() && r.incidents[i].Val() == s.incidents[i] {
      IncidentApart(r.incidents, s.incidents, ip, i);
    }
    forall i | 0 <= i < |r.actions| ensures r.actions[i].Val() == s.actions[i] {
      ActionApart(r.actions, s.actions, ap, i);
    }
  }
}

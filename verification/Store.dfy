/** The in-memory store: bounded event retention, an append-only audit log, and
    copies on the way in and on the way out. */
module Store {
  import opened Events
  import opened Incidents
  import opened Audit
  import opened Order
  import opened Pages

  const DEFAULT_MAX_EVENTS := 10000

  // -------------------------------------------------------------------------
  // Retention
  // -------------------------------------------------------------------------

  function Last<T>(s: seq<T>, n: nat): seq<T> {
    if |s| > n then s[|s| - n..] else s
  }

  ghost function EventIds(evs: seq<SecurityEvent>): set<string> {
    set ev | ev in evs :: ev.id
  }

  ghost predicate IdsDistinct(evs: seq<SecurityEvent>) {
    forall i, j :: 0 <= i < j < |evs| ==> evs[i].id != evs[j].id
  }

  /** The log of accepted events after one more is offered. */
  ghost function Accepted(accepted: seq<SecurityEvent>, ev: SecurityEvent, maxEvents: nat): seq<SecurityEvent> {
    if ev.id in EventIds(Last(accepted, maxEvents)) then accepted else accepted + [ev]
  }

  lemma IdsExtend(evs: seq<SecurityEvent>, ev: SecurityEvent)
    requires IdsDistinct(evs) && ev.id !in EventIds(evs)
    ensures IdsDistinct(evs + [ev]) && EventIds(evs + [ev]) == EventIds(evs) + {ev.id}
  {
    assert forall e :: e in evs ==> e.id in EventIds(evs);
  }

  lemma IdsDrop(evs: seq<SecurityEvent>, i: nat)
    requires IdsDistinct(evs) && i < |evs|
    ensures EventIds(evs[i + 1..]) == EventIds(evs[i..]) - {evs[i].id}
  {
    assert evs[i..] == [evs[i]] + evs[i + 1..];
  }

  /** The store holds the newest accepted events, and exactly their ids. */
  ghost predicate Retained(events: seq<SecurityEvent>, ids: set<string>, accepted: seq<SecurityEvent>, maxEvents: nat) {
    && maxEvents > 0
    && events == Last(accepted, maxEvents)
    && IdsDistinct(events)
    && ids == EventIds(events)
  }

  lemma RetainOneMore(events: seq<SecurityEvent>, ids: set<string>, accepted: seq<SecurityEvent>, ev: SecurityEvent, maxEvents: nat)
    requires Retained(events, ids, accepted, maxEvents) && ev.id !in ids
    ensures IdsDistinct(events + [ev]) && ids + {ev.id} == EventIds(events + [ev])
    ensures var kept := Last(events + [ev], maxEvents); Retained(kept, EventIds(kept), accepted + [ev], maxEvents)
    ensures accepted + [ev] == Accepted(accepted, ev, maxEvents)
    ensures ev.id in EventIds(accepted + [ev])
  {
    RetentionStep(accepted, ev, maxEvents);
    IdsExtend(events, ev);
    assert (accepted + [ev])[|accepted|] == ev;
  }

  /** Retaining one more event keeps exactly the newest ones. */
  lemma RetentionStep(accepted: seq<SecurityEvent>, ev: SecurityEvent, maxEvents: nat)
    requires maxEvents > 0
    ensures Last(Last(accepted, maxEvents) + [ev], maxEvents) == Last(accepted + [ev], maxEvents)
  {
  }

  predicate IncidentBefore(a: IncidentVal, b: IncidentVal) {
    if a.lastSeen != b.lastSeen then a.lastSeen > b.lastSeen else StrLess(b.id, a.id)
  }

  datatype Filter = Filter(status: string, severity: string, minRiskScore: int)

  predicate Matches(f: Filter, v: IncidentVal) {
    && (f.status == "" || v.status == f.status)
    && (f.severity == "" || v.severity == f.severity)
    && v.riskScore >= (if f.minRiskScore < 0 then 0 else f.minRiskScore)
  }

  /** The one listing a filter has: most recently active first, then by id. */
  ghost predicate IncidentListing(held: map<string, IncidentVal>, f: Filter, listing: seq<IncidentVal>) {
    && Ascending(IncidentBefore, listing)
    && (forall v :: v in listing <==> v.id in held && held[v.id] == v && Matches(f, v))
  }

  lemma IncidentListingUnique(held: map<string, IncidentVal>, f: Filter, a: seq<IncidentVal>, b: seq<IncidentVal>)
    requires IncidentListing(held, f, a) && IncidentListing(held, f, b)
    ensures a == b
  {
    forall x, y | IncidentBefore(x, y) ensures !IncidentBefore(y, x) {
      LexTrichotomy(CharLess, x.id, y.id);
    }
    SortedUnique(IncidentBefore, a, b);
  }

  lemma IncidentWeakOrder()
    ensures WeakOrder(IncidentBefore)
  {
    StrTotal();
    forall a, b | IncidentBefore(a, b) ensures !IncidentBefore(b, a) {
      LexTrichotomy(CharLess, a.id, b.id);
    }
    forall a, b, c | !IncidentBefore(b, a) && !IncidentBefore(c, b) ensures !IncidentBefore(c, a) {
      assert !StrLess(b.id, c.id) && !StrLess(a.id, b.id) ==> !StrLess(a.id, c.id);
    }
  }

  /** An audit entry as it is stored: the caller's fields, the store's number. */
  function Stamped(v: EntryVal, n: int): EntryVal {
    v.(sequence := n)
  }

  /** Every key once, in first-creation order. */
  ghost predicate Lists(order: seq<string>, keys: set<string>) {
    Elements(order) == keys && Distinct(order)
  }

  /** Keys in first-creation order, after one more is written. */
  function OrderedWith(order: seq<string>, id: string): seq<string> {
    if id in order then order else order + [id]
  }

  lemma ListsOneMore(order: seq<string>, keys: set<string>, id: string)
    requires Lists(order, keys)
    ensures Lists(OrderedWith(order, id), keys + {id})
    ensures OrderedWith(order, id) == if id in keys then order else order + [id]
  {
    assert forall x :: x in order <==> x in Elements(order);
    if id !in keys {
      assert Elements(order + [id]) == Elements(order) + {id};
    } else {
      assert keys + {id} == keys;
    }
  }

  /** Where an entry occurs last, or -1. */
  function LastAt(s: seq<Entry?>, e: Entry): (i: int)
    ensures -1 <= i < |s|
    ensures i >= 0 ==> s[i] == e
    ensures forall k :: i < k < |s| ==> s[k] != e
  {
    if s == [] then -1 else if s[|s| - 1] == e then |s| - 1 else LastAt(s[..|s| - 1], e)
  }

  /** Entries as the log carries them once it has been extended with them. */
  ghost predicate Logged(log: seq<EntryVal>, entries: seq<EntryVal>, log': seq<EntryVal>) {
    && |log'| == |log| + |entries| && log <= log'
    && (forall i :: 0 <= i < |entries| ==> log'[|log| + i] == Stamped(entries[i], |log| + i + 1))
  }

  /** What an entry says once `done` have been appended to a log of length `base`. */
  ghost function Renumbered(done: seq<Entry>, e: Entry, v: EntryVal, base: nat): EntryVal {
    if e in done then Stamped(v, base + LastAt(done, e) + 1) else v
  }

  lemma NothingNumbered(entries: seq<Entry>, vals: seq<EntryVal>, log: seq<EntryVal>)
    requires |entries| == |vals|
    ensures Logged(log, vals[..0], log)
    ensures forall j :: 0 <= j < |entries| ==> Renumbered(entries[..0], entries[j], vals[j], |log|) == vals[j]
  {
  }

  lemma NumberedAtLast(entries: seq<Entry>, e: Entry, v: EntryVal, base: nat)
    requires e in entries
    ensures Renumbered(entries, e, v, base) == Stamped(v, base + LastAt(entries, e) + 1)
  {
  }

  /** Stamping again replaces the number. */
  lemma StampedTwice(done: seq<Entry>, e: Entry, v: EntryVal, base: nat)
    ensures forall n :: Stamped(Renumbered(done, e, v, base), n) == Stamped(v, n)
  {
  }

  lemma OneMoreNumbered(entries: seq<Entry>, i: nat, vals: seq<EntryVal>, base: nat)
    requires i < |entries| == |vals|
    ensures forall j :: 0 <= j < |entries| ==>
      Renumbered(entries[..i + 1], entries[j], vals[j], base)
      == if entries[j] == entries[i] then Stamped(vals[j], base + i + 1) else Renumbered(entries[..i], entries[j], vals[j], base)
  {
    assert entries[..i + 1][..i] == entries[..i];
    assert entries[..i + 1] == entries[..i] + [entries[i]];
  }

  class MemoryStore {
    var events: seq<SecurityEvent>
    var eventIDs: set<string>
    var incidents: map<string, Incident>
    var incidentOrder: seq<string>
    var actions: map<string, Action>
    var actionOrder: seq<string>
    var auditLog: seq<Entry>
    var auditSeq: int
    const maxEvents: nat

    // Every record the incidents, the actions and the audit log are made of.
    ghost var incidentRepr: set<object>
    ghost var actionRepr: set<object>
    ghost var auditRepr: set<object>
    // What the records say, and every event ever accepted.
    ghost var accepted: seq<SecurityEvent>
    ghost var held: map<string, IncidentVal>
    ghost var decided: map<string, ActionVal>
    ghost var log: seq<EntryVal>

    ghost predicate EventsOK()
      reads this`events, this`eventIDs, this`accepted
    {
      Retained(events, eventIDs, accepted, maxEvents)
    }

    /** Every record the store holds, directly or through another. */
    ghost function Repr(): set<object>
      reads this`incidentRepr, this`actionRepr, this`auditRepr
    {
      incidentRepr + actionRepr + auditRepr
    }

    ghost predicate IncidentsOK()
      reads this`incidents, this`incidentOrder, this`held, this`incidentRepr, incidentRepr
    {
      && AllIncidents(incidents, held, incidentRepr)
      && Lists(incidentOrder, incidents.Keys)
    }

    ghost predicate ActionsOK()
      reads this`actions, this`actionOrder, this`decided, this`actionRepr, actionRepr
    {
      && AllActions(actions, decided, actionRepr)
      && Lists(actionOrder, actions.Keys)
    }

    ghost predicate AuditOK()
      reads this`auditLog, this`auditSeq, this`log, this`auditRepr, auditRepr
    {
      auditSeq == |auditLog| && AllEntries(auditLog, log, auditRepr)
    }

    ghost predicate Valid()
      reads this, Repr()
    {
      this !in Repr() && EventsOK() && IncidentsOK() && ActionsOK() && AuditOK()
    }

    constructor (maxEvents: int)
      ensures Valid() && Repr() == {}
      ensures accepted == [] && held == map[] && decided == map[] && log == []
      ensures this.maxEvents == if maxEvents <= 0 then DEFAULT_MAX_EVENTS else maxEvents
    {
      this.maxEvents := if maxEvents <= 0 then DEFAULT_MAX_EVENTS else maxEvents;
      events, eventIDs, accepted := [], {}, [];
      incidents, incidentOrder, actions, actionOrder := map[], [], map[], [];
      auditLog, auditSeq := [], 0;
      held, decided, log := map[], map[], [];
      incidentRepr, actionRepr, auditRepr := {}, {}, {};
    }

    // -----------------------------------------------------------------------
    // Events
    // -----------------------------------------------------------------------

    method SaveEvent(ev: SecurityEvent) returns (ok: bool)
      requires Valid()
      modifies this`events, this`eventIDs, this`accepted
      ensures Valid()
      ensures ok <==> ev.id != ""
      ensures accepted == if ok then Accepted(old(accepted), ev, maxEvents) else old(accepted)
      ensures ok ==> ev.id in EventIds(accepted)
    {
      hide IncidentsOK, ActionsOK, AuditOK;
      if ev.id == "" {
        return false;
      }
      if ev.id in eventIDs {
        HeldWasAccepted(accepted, maxEvents, ev.id);
        return true;
      }
      KeepEvent(ev);
      ok := true;
    }

    /** Keeps one event more, and forgets the oldest ones beyond the limit. */
    method KeepEvent(ev: SecurityEvent)
      requires EventsOK() && ev.id !in eventIDs
      modifies this`events, this`eventIDs, this`accepted
      ensures EventsOK() && accepted == Accepted(old(accepted), ev, maxEvents) && ev.id in EventIds(accepted)
    {
      hide Retained;
      RetainOneMore(events, eventIDs, accepted, ev, maxEvents);
      accepted := accepted + [ev];
      events := events + [ev];
      eventIDs := eventIDs + {ev.id};
      if |events| > maxEvents {
        DropOldest(|events| - maxEvents);
      }
    }

    method DropOldest(n: nat)
      requires n <= |events| && IdsDistinct(events) && eventIDs == EventIds(events)
      modifies this`events, this`eventIDs
      ensures events == old(events)[n..]
      ensures IdsDistinct(events) && eventIDs == EventIds(events)
    {
      var dropped := events[..n];
      ghost var all := events;
      for i := 0 to |dropped|
        invariant events == all
        invariant eventIDs == EventIds(events[i..])
      {
        IdsDrop(events, i);
        eventIDs := eventIDs - {dropped[i].id};
      }
      events := events[n..];
    }

    method ListEvents(limit: int, offset: int) returns (page: seq<SecurityEvent>, total: nat)
      requires Valid()
      ensures total == |events|
      ensures page == Page(NewestFirst(events), limit, offset)
    {
      var clamped := ClampLimit(limit);
      var start := if offset < 0 then 0 else offset;
      total := |events|;
      var ordered := NewestFirst(events);
      if start >= total {
        return [], total;
      }
      var end := start + clamped;
      if end > total {
        end := total;
      }
      page := ordered[start..end];
    }

    // -----------------------------------------------------------------------
    // Incidents
    // -----------------------------------------------------------------------

    method SaveIncident(inc: Incident) returns (ok: bool)
      requires Valid() && inc.Valid() && inc.repr !! Repr()
      modifies this`incidents, this`incidentOrder, this`held, this`incidentRepr
      ensures Valid() && fresh(Repr() - old(Repr()))
      ensures ok <==> inc.id != ""
      ensures held == if ok then old(held)[inc.id := old(inc.Val())] else old(held)
    {
      hide Valid, Incident.Held, Incident.Val;
      if inc.id == "" {
        return false;
      }
      ghost var v := inc.Val();
      var clone := inc.DeepCopy();
      FileIncident(clone, v);
      ok := true;
    }

    /** Files a record nobody else holds. */
    method FileIncident(clone: Incident, ghost v: IncidentVal)
      requires Valid() && clone.Held(v, clone.repr) && this !in clone.repr
      modifies this`incidents, this`incidentOrder, this`held, this`incidentRepr
      ensures Valid() && incidentRepr == old(incidentRepr) + clone.repr
      ensures held == old(held)[v.id := v]
    {
      hide EventsOK, ActionsOK, AuditOK, AllIncidents, Lists, Incident.Held, Incident.Val, Incident.Valid;
      OneMoreIncident(incidents, held, incidentRepr, clone, v);
      ListsOneMore(incidentOrder, incidents.Keys, v.id);
      assert incidents[v.id := clone].Keys == incidents.Keys + {v.id};
      clone.HeldSays(v, clone.repr);
      if clone.id !in incidents {
        incidentOrder := incidentOrder + [clone.id];
      }
      incidents := incidents[clone.id := clone];
      held := held[v.id := v];
      incidentRepr := incidentRepr + clone.repr;
    }

    method GetIncident(id: string) returns (r: Option<Incident>)
      requires Valid()
      ensures r.Some? <==> id in held
      ensures r.Some? ==> r.value.Valid() && fresh(r.value.repr) && r.value.Val() == held[id]
    {
      if id !in incidents {
        return None;
      }
      assert incidents[id].Held(held[id], incidentRepr);
      incidents[id].HeldSays(held[id], incidentRepr);
      hide Valid, Incident.Val;
      var clone := incidents[id].DeepCopy();
      r := Some(clone);
    }

    // -----------------------------------------------------------------------
    // Actions and audit
    // -----------------------------------------------------------------------

    method FileAction(clone: Action, ghost v: ActionVal)
      requires Valid() && clone.Held(v, clone.Footprint()) && this !in clone.Footprint()
      modifies this`actions, this`actionOrder, this`decided, this`actionRepr
      ensures Valid() && actionRepr == old(actionRepr) + clone.Footprint()
      ensures decided == old(decided)[v.id := v] && actionOrder == OrderedWith(old(actionOrder), v.id)
    {
      hide EventsOK, IncidentsOK, AuditOK, AllActions, Lists, Action.Footprint, Action.Held, Action.Val;
      OneMoreAction(actions, decided, actionRepr, clone, v);
      ListsOneMore(actionOrder, actions.Keys, v.id);
      assert actions[v.id := clone].Keys == actions.Keys + {v.id};
      clone.HeldSays(v, clone.Footprint());
      ghost var footprint := clone.Footprint();
      var id := clone.scalars.id;
      if id !in actions {
        actionOrder := actionOrder + [id];
      }
      actions := actions[id := clone];
      decided := decided[v.id := v];
      actionRepr := actionRepr + footprint;
    }

    method SaveActionLocked(action: Action)
      requires Valid() && action.Footprint() !! Repr()
      modifies this`actions, this`actionOrder, this`decided, this`actionRepr
      ensures Valid() && fresh(Repr() - old(Repr()))
      ensures fresh(actionRepr - old(actionRepr))
      ensures decided == old(decided)[action.scalars.id := old(action.Val())]
      ensures actionOrder == OrderedWith(old(actionOrder), action.scalars.id)
    {
      ghost var v := action.Val();
      hide Valid, Action.Val, Action.Footprint, Action.Held;
      var clone := action.DeepCopy();
      assert this !in clone.Footprint();
      FileAction(clone, v);
    }

    method AppendAuditLocked(entry: Entry)
      requires Valid() && entry.Footprint() !! Repr()
      modifies this`auditLog, this`auditSeq, this`log, this`auditRepr, entry`sequence
      ensures Valid() && fresh(Repr() - old(Repr()))
      ensures fresh(auditRepr - old(auditRepr))
      ensures log == old(log) + [Stamped(old(entry.Val()), |old(log)| + 1)]
      ensures entry.Val() == Stamped(old(entry.Val()), |old(log)| + 1)
      ensures entry.Footprint() == old(entry.Footprint())
    {
      hide Valid;
      ghost var v := Stamped(entry.Val(), |log| + 1);
      assert auditSeq == |log| by { SequenceDense(); }
      var clone := entry.DeepCopy();
      clone.sequence := auditSeq + 1;
      entry.sequence := auditSeq + 1;
      assert clone.Held(v, clone.Footprint()) && this !in clone.Footprint();
      FileEntry(clone, v);
    }

    lemma SequenceDense()
      requires Valid()
      ensures auditSeq == |log| == |auditLog|
    {
    }

    method FileEntry(clone: Entry, ghost v: EntryVal)
      requires Valid() && clone.Held(v, clone.Footprint()) && this !in clone.Footprint()
      requires v.sequence == |log| + 1
      modifies this`auditLog, this`auditSeq, this`log, this`auditRepr
      ensures Valid() && auditRepr == old(auditRepr) + clone.Footprint()
      ensures log == old(log) + [v]
    {
      hide EventsOK, IncidentsOK, ActionsOK, AuditOK, Entry.Footprint, Entry.Held, Entry.Val;
      PushEntry(clone, v);
    }

    /** The next entry of the log, in the next place. */
    method PushEntry(clone: Entry, ghost v: EntryVal)
      requires AuditOK() && clone.Held(v, clone.Footprint()) && this !in auditRepr + clone.Footprint()
      requires v.sequence == |log| + 1
      modifies this`auditLog, this`auditSeq, this`log, this`auditRepr
      ensures AuditOK() && auditRepr == old(auditRepr) + clone.Footprint()
      ensures log == old(log) + [v]
    {
      hide AllEntries, Entry.Footprint, Entry.Held, Entry.Val;
      OneMoreEntry(auditLog, log, auditRepr, clone, v);
      ghost var footprint := clone.Footprint();
      auditSeq := auditSeq + 1;
      auditLog := auditLog + [clone];
      log := log + [v];
      auditRepr := auditRepr + footprint;
    }

    /** One action and the entries describing it, or nothing at all. */
    method SaveActionWithAudit(action: Action?, entries: seq<Entry?>, ghost vals: seq<EntryVal>) returns (ok: bool)
      requires Valid()
      requires action != null ==> action.Footprint() !! Repr()
      requires forall e :: e in entries && e != null ==> e.Footprint() !! Repr()
      requires |vals| == |entries| && forall i :: 0 <= i < |entries| && entries[i] != null ==> entries[i].Val() == vals[i]
      modifies this`actions, this`actionOrder, this`decided, this`actionRepr
      modifies this`auditLog, this`auditSeq, this`log, this`auditRepr, (set e | e in entries && e != null)`sequence
      ensures Valid() && fresh(Repr() - old(Repr()))
      ensures ok <==> (action != null ==> action.scalars.id != "") && forall e :: e in entries ==> e != null && e.id != ""
      ensures !ok ==> decided == old(decided) && log == old(log) && actionOrder == old(actionOrder)
      ensures !ok ==> forall i :: 0 <= i < |entries| && entries[i] != null ==> entries[i].Val() == vals[i]
      ensures ok ==> decided == if action == null then old(decided) else old(decided)[action.scalars.id := old(action.Val())]
      ensures ok ==> actionOrder == if action == null then old(actionOrder) else OrderedWith(old(actionOrder), action.scalars.id)
      ensures ok ==> Logged(old(log), vals, log)
      ensures ok ==> forall i :: 0 <= i < |entries| ==>
        entries[i] != null && entries[i].Val() == Stamped(vals[i], |old(log)| + LastAt(entries, entries[i]) + 1)
    {
      hide Valid, Action.Val, Entry.Val, Action.Footprint, LastAt, Logged;
      if action != null && action.scalars.id == "" {
        return false;
      }
      for i := 0 to |entries|
        invariant forall j :: 0 <= j < i ==> entries[j] != null && entries[j].id != ""
      {
        if entries[i] == null || entries[i].id == "" {
          assert entries[i] in entries;
          return false;
        }
      }
      WriteAll(action, entries, vals);
      ok := true;
    }

    /** The writes themselves; nothing can fail any more. */
    method WriteAll(action: Action?, entries: seq<Entry>, ghost vals: seq<EntryVal>)
      requires Valid()
      requires action != null ==> action.Footprint() !! Repr()
      requires forall e :: e in entries ==> e.Footprint() !! Repr()
      requires |vals| == |entries| && forall i :: 0 <= i < |entries| ==> entries[i].Val() == vals[i]
      modifies this`actions, this`actionOrder, this`decided, this`actionRepr
      modifies this`auditLog, this`auditSeq, this`log, this`auditRepr, (set e | e in entries)`sequence
      ensures Valid() && fresh(Repr() - old(Repr()))
      ensures decided == if action == null then old(decided) else old(decided)[action.scalars.id := old(action.Val())]
      ensures actionOrder == if action == null then old(actionOrder) else OrderedWith(old(actionOrder), action.scalars.id)
      ensures Logged(old(log), vals, log)
      ensures forall i :: 0 <= i < |entries| ==>
        entries[i].Val() == Stamped(vals[i], |old(log)| + LastAt(entries, entries[i]) + 1)
    {
      hide Valid, Action.Val, Action.Footprint, Entry.Val, Stamped, Logged, LastAt;
      assert forall i :: 0 <= i < |entries| ==> entries[i] in entries;
      if action != null {
        SaveActionLocked(action);
      }
      assert forall e :: e in entries ==> e.Footprint() !! Repr();
      AppendAll(entries, vals);
    }

    method AppendAll(entries: seq<Entry>, ghost vals: seq<EntryVal>)
      requires Valid()
      requires forall e :: e in entries ==> e.Footprint() !! Repr()
      requires |vals| == |entries| && forall i :: 0 <= i < |entries| ==> entries[i].Val() == vals[i]
      modifies this`auditLog, this`auditSeq, this`log, this`auditRepr, (set e | e in entries)`sequence
      ensures Valid()
      ensures fresh(auditRepr - old(auditRepr))
      ensures Logged(old(log), vals, log)
      ensures forall i :: 0 <= i < |entries| ==>
        entries[i].Val() == Stamped(vals[i], |old(log)| + LastAt(entries, entries[i]) + 1)
    {
      hide Valid, Entry.Val, Logged, Renumbered, LastAt;
      ghost var before := log;
      NothingNumbered(entries, vals, log);
      for i := 0 to |entries|
        invariant Valid() && fresh(auditRepr - old(auditRepr))
        invariant Logged(before, vals[..i], log)
        invariant forall e :: e in entries ==> e.Footprint() == old(e.Footprint())
        invariant forall j :: 0 <= j < |entries| ==> entries[j].Val() == Renumbered(entries[..i], entries[j], vals[j], |before|)
      {
        AppendNth(entries, vals, before, i);
      }
      assert entries[..|entries|] == entries && vals[..|entries|] == vals;
      forall i | 0 <= i < |entries| ensures entries[i].Val() == Stamped(vals[i], |before| + LastAt(entries, entries[i]) + 1) {
        NumberedAtLast(entries, entries[i], vals[i], |before|);
      }
    }

    /** The entry at `i`, once those before it have been appended. */
    method AppendNth(entries: seq<Entry>, ghost vals: seq<EntryVal>, ghost before: seq<EntryVal>, i: nat)
      requires Valid() && i < |entries| == |vals|
      requires forall e :: e in entries ==> e.Footprint() !! Repr()
      requires Logged(before, vals[..i], log)
      requires forall j :: 0 <= j < |entries| ==> entries[j].Val() == Renumbered(entries[..i], entries[j], vals[j], |before|)
      modifies this`auditLog, this`auditSeq, this`log, this`auditRepr, {entries[i]}`sequence
      ensures Valid() && fresh(auditRepr - old(auditRepr))
      ensures Logged(before, vals[..i + 1], log)
      ensures forall e :: e in entries ==> e.Footprint() == old(e.Footprint())
      ensures forall j :: 0 <= j < |entries| ==> entries[j].Val() == Renumbered(entries[..i + 1], entries[j], vals[j], |before|)
    {
      hide Valid, Entry.Val, LastAt;
      assert vals[..i + 1] == vals[..i] + [vals[i]];
      OneMoreNumbered(entries, i, vals, |before|);
      hide Renumbered;
      StampedTwice(entries[..i], entries[i], vals[i], |before|);
      assert entries[i] in entries;
      AppendAuditLocked(entries[i]);
    }

    method Append(entry: Entry?) returns (ok: bool)
      requires Valid() && (entry != null ==> entry.Footprint() !! Repr())
      modifies this`auditLog, this`auditSeq, this`log, this`auditRepr
      modifies (if entry == null then {} else {entry})`sequence
      ensures Valid() && fresh(Repr() - old(Repr()))
      ensures ok <==> entry != null && entry.id != ""
      ensures log == if ok then old(log) + [Stamped(old(entry.Val()), |old(log)| + 1)] else old(log)
      ensures ok ==> entry.Val() == Stamped(old(entry.Val()), |old(log)| + 1)
      ensures !ok && entry != null ==> entry.Val() == old(entry.Val())
      ensures entry != null ==> entry.Footprint() == old(entry.Footprint())
    {
      hide Valid, Repr;
      if entry == null || entry.id == "" {
        return false;
      }
      AppendAuditLocked(entry);
      ok := true;
    }

    method GetAction(id: string) returns (r: Option<Action>)
      requires Valid()
      ensures r.Some? <==> id in decided
      ensures r.Some? ==> fresh(r.value.Footprint()) && r.value.Val() == decided[id]
    {
      if id !in actions {
        return None;
      }
      assert actions[id].Held(decided[id], actionRepr);
      var clone := actions[id].DeepCopy();
      r := Some(clone);
    }

    /** The audit trail, oldest first: fresh copies of one page of the log. */
    method List(limit: int, offset: int) returns (page: seq<Entry>, total: nat, ghost pool: set<object>)
      requires Valid()
      ensures total == |log|
      ensures EntriesApart(page, Page(log, limit, offset), pool) && fresh(pool)
    {
      hide EventsOK, IncidentsOK, ActionsOK;
      var clamped := ClampLimit(limit);
      var start := if offset < 0 then 0 else offset;
      total := |auditLog|;
      if start >= total {
        return [], total, {};
      }
      var end := start + clamped;
      if end > total {
        end := total;
      }
      page, pool := CopyEntries(auditLog[start..end], log[start..end], auditRepr);
    }

    /** One page of the incidents matching a filter, as fresh copies. */
    method ListIncidents(filter: Filter, limit: int, offset: int)
      returns (page: seq<Incident>, total: nat, ghost pool: set<object>, ghost listing: seq<IncidentVal>)
      requires Valid()
      ensures IncidentListing(held, filter, listing) && total == |listing|
      ensures IncidentsApart(page, Page(listing, limit, offset), pool) && fresh(pool)
    {
      hide EventsOK, IncidentsOK, ActionsOK, AuditOK, IncidentListing;
      var clamped := ClampLimit(limit);
      var start := if offset < 0 then 0 else offset;
      var matched := MatchingIncidents(filter);
      listing := matched;
      var records := RecordsOf(filter, matched);
      total := |matched|;
      if start >= total {
        return [], total, {}, matched;
      }
      var end := start + clamped;
      if end > total {
        end := total;
      }
      page, pool := CopyIncidents(records[start..end], matched[start..end], incidentRepr);
    }

    /** The stored records behind a listing. */
    method RecordsOf(ghost filter: Filter, listing: seq<IncidentVal>) returns (records: seq<Incident>)
      requires Valid() && IncidentListing(held, filter, listing)
      ensures |records| == |listing| && forall i :: 0 <= i < |records| ==> records[i].Held(listing[i], incidentRepr)
    {
      hide EventsOK, ActionsOK, AuditOK, Incident.Held, Incident.Val, Ascending;
      records := [];
      for i := 0 to |listing|
        invariant |records| == i && forall j :: 0 <= j < i ==> records[j].Held(listing[j], incidentRepr)
      {
        var v := listing[i];
        assert v in listing;
        assert incidents[v.id].Held(held[v.id], incidentRepr);
        records := records + [incidents[v.id]];
      }
    }

    lemma IncidentKeys()
      requires Valid()
      ensures forall id :: id in held <==> id in incidentOrder
    {
      assert forall id :: id in Elements(incidentOrder) <==> id in incidentOrder;
    }

    lemma IncidentAt(i: nat)
      requires Valid() && i < |incidentOrder|
      ensures var id := incidentOrder[i];
        && id in incidents && id in held && id !in incidentOrder[..i]
        && incidents[id].Valid() && incidents[id].Val() == held[id] && held[id].id == id
    {
      var id := incidentOrder[i];
      assert id in Elements(incidentOrder);
      assert incidents[id].Held(held[id], incidentRepr);
    }

    method MatchingIncidents(filter: Filter) returns (matched: seq<IncidentVal>)
      requires Valid()
      ensures IncidentListing(held, filter, matched)
    {
      IncidentKeys();
      hide EventsOK, IncidentsOK, ActionsOK, AuditOK, Incident.Val, Matches;
      matched := [];
      for i := 0 to |incidentOrder|
        invariant Distinct(matched)
        invariant forall v :: v in matched <==> v.id in incidentOrder[..i] && v.id in held && held[v.id] == v && Matches(filter, v)
      {
        var id := incidentOrder[i];
        assert incidentOrder[..i + 1] == incidentOrder[..i] + [id];
        IncidentAt(i);
        var v := incidents[id].Val();
        if Matches(filter, v) {
          matched := matched + [v];
        }
      }
      assert incidentOrder[..|incidentOrder|] == incidentOrder;
      IncidentWeakOrder();
      ghost var unsorted := matched;
      matched := SortSlice(matched, IncidentBefore);
      ListingSorted(held, filter, unsorted, matched);
    }

    /** Actions newest first, optionally those of one incident, as fresh copies. */
    method ListActions(incidentID: string, limit: int, offset: int)
      returns (page: seq<Action>, total: nat, ghost pool: set<object>)
      requires Valid()
      ensures total == |ActionListing(actionOrder, decided, incidentID)|
      ensures ActionsApart(page, Page(ActionListing(actionOrder, decided, incidentID), limit, offset), pool) && fresh(pool)
    {
      hide Valid, ActionListing;
      var clamped := ClampLimit(limit);
      var start := if offset < 0 then 0 else offset;
      ghost var listing := ActionListing(actionOrder, decided, incidentID);
      var matched := MatchingActions(incidentID);
      total := |matched|;
      if start >= total {
        return [], total, {};
      }
      var end := start + clamped;
      if end > total {
        end := total;
      }
      page, pool := CopyActions(matched[start..end], listing[start..end], actionRepr);
    }

    lemma ActionAt(i: nat)
      requires Valid() && i < |actionOrder|
      ensures var id := actionOrder[i];
        && id in actions && id in decided && actions[id].Held(decided[id], actionRepr)
        && actions[id].scalars.incidentID == decided[id].incidentID
    {
      assert actionOrder[i] in Elements(actionOrder);
      assert actions[actionOrder[i]].Held(decided[actionOrder[i]], actionRepr);
    }

    method MatchingActions(incidentID: string) returns (matched: seq<Action>)
      requires Valid()
      ensures |matched| == |ActionListing(actionOrder, decided, incidentID)|
      ensures forall j :: 0 <= j < |matched| ==>
        matched[j].Held(ActionListing(actionOrder, decided, incidentID)[j], actionRepr)
    {
      hide EventsOK, IncidentsOK, ActionsOK, AuditOK, Action.Held;
      matched := [];
      ghost var vals: seq<ActionVal> := [];
      var i := |actionOrder|;
      while i > 0
        invariant 0 <= i <= |actionOrder|
        invariant Valid() && vals == ActionListing(actionOrder[i..], decided, incidentID)
        invariant |matched| == |vals|
        invariant forall j :: 0 <= j < |matched| ==> matched[j].Held(vals[j], actionRepr)
      {
        i := i - 1;
        var id := actionOrder[i];
        ActionAt(i);
        OneMoreListed(actionOrder, i, decided, incidentID);
        if incidentID == "" || actions[id].scalars.incidentID == incidentID {
          matched := matched + [actions[id]];
          vals := vals + [decided[id]];
        }
      }
      assert actionOrder[0..] == actionOrder;
    }
  }

  lemma OneMoreListed(order: seq<string>, i: nat, decided: map<string, ActionVal>, incidentID: string)
    requires i < |order|
    ensures ActionListing(order[i..], decided, incidentID) == ActionListing(order[i + 1..], decided, incidentID)
      + if order[i] in decided && (incidentID == "" || decided[order[i]].incidentID == incidentID)
        then [decided[order[i]]] else []
  {
    assert order[i..][1..] == order[i + 1..];
  }

  /** Newest first: the last key created comes first. */
  ghost function ActionListing(order: seq<string>, decided: map<string, ActionVal>, incidentID: string): seq<ActionVal> {
    if order == [] then []
    else
      ActionListing(order[1..], decided, incidentID)
      + if order[0] in decided && (incidentID == "" || decided[order[0]].incidentID == incidentID)
        then [decided[order[0]]] else []
  }

  lemma ListingSorted(held: map<string, IncidentVal>, f: Filter, s: seq<IncidentVal>, r: seq<IncidentVal>)
    requires forall v :: v in s <==> v.id in held && held[v.id] == v && Matches(f, v)
    requires Distinct(s) && multiset(r) == multiset(s) && NoInversion(IncidentBefore, r)
    ensures IncidentListing(held, f, r)
  {
    SameElements(r, s);
    DistinctPermutation(s, r);
    forall i, j | 0 <= i < j < |r| ensures IncidentBefore(r[i], r[j]) {
      assert r[i] in r && r[j] in r && r[i] != r[j];
      LexTrichotomy(CharLess, r[i].id, r[j].id);
    }
  }

  // -------------------------------------------------------------------------
  // The records behind each table
  // -------------------------------------------------------------------------

  ghost predicate AllIncidents(incidents: map<string, Incident>, held: map<string, IncidentVal>, repr: set<object>)
    reads repr
  {
    && incidents.Keys == held.Keys
    && (forall id :: id in incidents ==> incidents[id].Held(held[id], repr) && held[id].id == id)
  }

  lemma OneMoreIncident(incidents: map<string, Incident>, held: map<string, IncidentVal>, repr: set<object>,
                        clone: Incident, v: IncidentVal)
    requires AllIncidents(incidents, held, repr) && clone.Held(v, clone.repr)
    ensures AllIncidents(incidents[v.id := clone], held[v.id := v], repr + clone.repr)
  {
    hide Incident.Held;
    clone.HeldGrows(v, clone.repr, repr + clone.repr);
    forall id | id in incidents ensures incidents[id].Held(held[id], repr + clone.repr) {
      incidents[id].HeldGrows(held[id], repr, repr + clone.repr);
    }
  }

  ghost predicate AllActions(actions: map<string, Action>, decided: map<string, ActionVal>, repr: set<object>)
    reads repr
  {
    && actions.Keys == decided.Keys
    && (forall id :: id in actions ==> actions[id].Held(decided[id], repr) && decided[id].id == id)
  }

  lemma OneMoreAction(actions: map<string, Action>, decided: map<string, ActionVal>, repr: set<object>,
                      clone: Action, v: ActionVal)
    requires AllActions(actions, decided, repr) && clone.Held(v, clone.Footprint())
    ensures AllActions(actions[v.id := clone], decided[v.id := v], repr + clone.Footprint())
  {
    hide Action.Held, Action.Footprint;
    clone.HeldGrows(v, clone.Footprint(), repr + clone.Footprint());
    forall id | id in actions ensures actions[id].Held(decided[id], repr + clone.Footprint()) {
      actions[id].HeldGrows(decided[id], repr, repr + clone.Footprint());
    }
  }

  ghost predicate AllEntries(entries: seq<Entry>, log: seq<EntryVal>, repr: set<object>): (all: bool)
    reads repr
    ensures all ==> |entries| == |log|
  {
    && |entries| == |log|
    && (forall i :: 0 <= i < |entries| ==> entries[i].Held(log[i], repr) && log[i].sequence == i + 1)
  }

  lemma OneMoreEntry(entries: seq<Entry>, log: seq<EntryVal>, repr: set<object>, clone: Entry, v: EntryVal)
    requires AllEntries(entries, log, repr) && clone.Held(v, clone.Footprint()) && v.sequence == |log| + 1
    ensures AllEntries(entries + [clone], log + [v], repr + clone.Footprint())
  {
    hide Entry.Held, Entry.Footprint;
    clone.HeldGrows(v, clone.Footprint(), repr + clone.Footprint());
    forall i | 0 <= i < |entries| ensures entries[i].Held(log[i], repr + clone.Footprint()) {
      entries[i].HeldGrows(log[i], repr, repr + clone.Footprint());
    }
  }

  function NewestFirst<T>(s: seq<T>): seq<T> {
    seq(|s|, i requires 0 <= i < |s| => s[|s| - 1 - i])
  }

  lemma HeldWasAccepted(accepted: seq<SecurityEvent>, maxEvents: nat, id: string)
    requires id in EventIds(Last(accepted, maxEvents))
    ensures id in EventIds(accepted)
  {
    var ev :| ev in Last(accepted, maxEvents) && ev.id == id;
    assert ev in accepted;
  }
}

/** Audit entries and response actions: the values, and the records whose nested
    references make copying them a matter of care. */
module Audit {
  import opened Events
  import opened Slices

  // -------------------------------------------------------------------------
  // Audit entries
  // -------------------------------------------------------------------------

  datatype EntryVal = EntryVal(
    id: string, sequence: int, timestamp: int, actor: string, action: string,
    subjectType: string, subjectID: string, outcome: string, reason: string,
    details: Option<map<string, string>>)

  /** A Go map: a reference, shared by every holder. */
  class Details {
    var m: map<string, string>

    constructor (m: map<string, string>)
      ensures this.m == m
    {
      this.m := m;
    }
  }

  class Entry {
    var id: string
    var sequence: int
    var timestamp: int
    var actor: string
    var action: string
    var subjectType: string
    var subjectID: string
    var outcome: string
    var reason: string
    var details: Details?

    constructor (v: EntryVal)
      ensures Val() == v && fresh(Footprint())
    {
      id, sequence, timestamp, actor, action := v.id, v.sequence, v.timestamp, v.actor, v.action;
      subjectType, subjectID, outcome, reason := v.subjectType, v.subjectID, v.outcome, v.reason;
      if v.details.Some? {
        details := new Details(v.details.value);
      } else {
        details := null;
      }
    }

    /** A struct copy: the details map is shared with the original. */
    constructor Shallow(o: Entry)
      ensures id == o.id && sequence == o.sequence && timestamp == o.timestamp && actor == o.actor && action == o.action
      ensures subjectType == o.subjectType && subjectID == o.subjectID && outcome == o.outcome && reason == o.reason
      ensures details == o.details
    {
      id, sequence, timestamp, actor, action := o.id, o.sequence, o.timestamp, o.actor, o.action;
      subjectType, subjectID, outcome, reason := o.subjectType, o.subjectID, o.outcome, o.reason;
      details := o.details;
    }

    /** Everything a holder of this entry can reach and change. */
    ghost function Footprint(): (r: set<object>)
      reads this
      ensures this in r
    {
      {this} + if details == null then {} else {details}
    }

    ghost function Val(): (v: EntryVal)
      reads Footprint()
    {
      EntryVal(id, sequence, timestamp, actor, action, subjectType, subjectID, outcome, reason,
               if details == null then None else Some(details.m))
    }

    /** This entry lies wholly within `repr` and says `v`. */
    ghost predicate Held(v: EntryVal, repr: set<object>)
      reads repr
    {
      this in repr && Footprint() <= repr && Val() == v
    }

    lemma HeldSays(v: EntryVal, repr: set<object>)
      requires Held(v, repr)
      ensures Val() == v && Footprint() <= repr && id == v.id
    {
    }

    lemma HeldGrows(v: EntryVal, repr: set<object>, more: set<object>)
      requires Held(v, repr) && repr <= more
      ensures Held(v, more)
    {
    }

    /** A struct copy whose details map is then replaced. */
    method DeepCopy() returns (c: Entry)
      ensures c.Held(Val(), c.Footprint()) && fresh(c.Footprint())
    {
      c := new Entry.Shallow(this);
      if details != null {
        c.details := new Details(details.m);
      }
    }
  }

  /** The records lie within `pool`, say `vals`, and share nothing with each other. */
  ghost predicate EntriesApart(entries: seq<Entry>, vals: seq<EntryVal>, pool: set<object>): (apart: bool)
    reads pool
    ensures apart ==> |entries| == |vals|
  {
    && |entries| == |vals|
    && (forall i :: 0 <= i < |entries| ==> entries[i].Held(vals[i], pool))
    && (forall i, j :: 0 <= i < j < |entries| ==> entries[i].Footprint() !! entries[j].Footprint())
  }

  lemma OneMoreEntryApart(entries: seq<Entry>, vals: seq<EntryVal>, pool: set<object>, one: Entry, v: EntryVal)
    requires EntriesApart(entries, vals, pool) && one.Held(v, one.Footprint()) && one.Footprint() !! pool
    ensures EntriesApart(entries + [one], vals + [v], pool + one.Footprint())
  {
    hide Entry.Held, Entry.Footprint, Entry.Val;
    var all := pool + one.Footprint();
    one.HeldGrows(v, one.Footprint(), all);
    forall i | 0 <= i < |entries| ensures entries[i].Held(vals[i], all) && entries[i].Footprint() <= pool {
      entries[i].HeldGrows(vals[i], pool, all);
      entries[i].HeldSays(vals[i], pool);
    }
  }

  lemma EntryApart(entries: seq<Entry>, vals: seq<EntryVal>, pool: set<object>, i: nat)
    requires EntriesApart(entries, vals, pool) && i < |entries|
    ensures |vals| == |entries| && entries[i].Held(vals[i], pool) && entries[i].Val() == vals[i] && entries[i].Footprint() <= pool
  {
    entries[i].HeldSays(vals[i], pool);
  }

  lemma JoinEntriesApart(a: seq<Entry>, va: seq<EntryVal>, pa: set<object>, b: seq<Entry>, vb: seq<EntryVal>, pb: set<object>)
    requires EntriesApart(a, va, pa) && EntriesApart(b, vb, pb) && pa !! pb
    ensures EntriesApart(a + b, va + vb, pa + pb)
  {
    hide Entry.Held, Entry.Val, Entry.Footprint;
    forall i | 0 <= i < |a| ensures a[i].Held(va[i], pa + pb) && a[i].Footprint() <= pa {
      a[i].HeldGrows(va[i], pa, pa + pb);
      a[i].HeldSays(va[i], pa);
    }
    forall i | 0 <= i < |b| ensures b[i].Held(vb[i], pa + pb) && b[i].Footprint() <= pb {
      b[i].HeldGrows(vb[i], pb, pa + pb);
      b[i].HeldSays(vb[i], pb);
    }
  }

  /** Deep copies of records, sharing nothing with anyone. */
  method CopyEntries(entries: seq<Entry>, ghost vals: seq<EntryVal>, ghost repr: set<object>)
    returns (copies: seq<Entry>, ghost pool: set<object>)
    requires |entries| == |vals| && forall i :: 0 <= i < |entries| ==> entries[i].Held(vals[i], repr)
    ensures EntriesApart(copies, vals, pool) && fresh(pool)
  {
    copies, pool := [], {};
    for i := 0 to |entries|
      invariant EntriesApart(copies, vals[..i], pool) && fresh(pool)
      invariant forall j :: 0 <= j < |entries| ==> entries[j].Held(vals[j], repr)
    {
      hide EntriesApart, Entry.Held, Entry.Val, Entry.Footprint;
      assert vals[..i + 1] == vals[..i] + [vals[i]];
      entries[i].HeldSays(vals[i], repr);
      var c := entries[i].DeepCopy();
      OneMoreEntryApart(copies, vals[..i], pool, c, vals[i]);
      copies, pool := copies + [c], pool + c.Footprint();
    }
    assert vals[..|entries|] == vals;
  }

  method NewEntry(entries: seq<Entry>, ghost vals: seq<EntryVal>, ghost pool: set<object>, v: EntryVal)
    returns (more: seq<Entry>, ghost pool': set<object>)
    requires EntriesApart(entries, vals, pool)
    ensures EntriesApart(more, vals + [v], pool') && pool <= pool' && fresh(pool' - pool)
  {
    hide EntriesApart;
    var one := new Entry(v);
    assert one.Held(v, one.Footprint());
    OneMoreEntryApart(entries, vals, pool, one, v);
    more, pool' := entries + [one], pool + one.Footprint();
  }

  // -------------------------------------------------------------------------
  // Response actions
  // -------------------------------------------------------------------------

  datatype Decision = Decision(effect: string, allow: bool, reasons: seq<string>,
                               policyPackage: string, policyVersion: string, failClosed: bool, engine: string)

  datatype Effect = Effect(description: string, affected: seq<string>, rollbackPlan: string)

  datatype ActionVal = ActionVal(
    id: string, incidentID: string, actionType: string, mode: string, status: string, requestedBy: string,
    reason: string, reversible: bool, destructive: bool, rollbackAction: string, targetEntityID: string,
    createdAt: int, decision: Option<Decision>, simulated: Option<Effect>, executedAt: Option<int>)

  class DecisionCell {
    // The decision but for its reasons.
    var plain: Decision
    var reasons: StringCells

    constructor (v: Decision)
      ensures Val() == v && fresh(reasons)
    {
      plain := v.(reasons := []);
      reasons := new StringCells(v.reasons);
    }

    constructor Shallow(o: DecisionCell)
      ensures plain == o.plain && reasons == o.reasons
    {
      plain, reasons := o.plain, o.reasons;
    }

    function Val(): Decision
      reads this, reasons
    {
      plain.(reasons := reasons.items)
    }

    ghost function Footprint(): set<object>
      reads this
    {
      {this, reasons}
    }

    method DeepCopy() returns (c: DecisionCell)
      ensures fresh(c.Footprint()) && c.Val() == Val()
    {
      c := new DecisionCell.Shallow(this);
      c.reasons := new StringCells(reasons.items);
    }
  }

  class EffectCell {
    // The effect but for the entities affected.
    var plain: Effect
    var affected: StringCells

    constructor (v: Effect)
      ensures Val() == v && fresh(affected)
    {
      plain := v.(affected := []);
      affected := new StringCells(v.affected);
    }

    constructor Shallow(o: EffectCell)
      ensures plain == o.plain && affected == o.affected
    {
      plain, affected := o.plain, o.affected;
    }

    function Val(): Effect
      reads this, affected
    {
      plain.(affected := affected.items)
    }

    ghost function Footprint(): set<object>
      reads this
    {
      {this, affected}
    }

    method DeepCopy() returns (c: EffectCell)
      ensures fresh(c.Footprint()) && c.Val() == Val()
    {
      c := new EffectCell.Shallow(this);
      c.affected := new StringCells(affected.items);
    }
  }

  class TimeCell {
    var v: int

    constructor (v: int)
      ensures this.v == v
    {
      this.v := v;
    }
  }

  /** Cells of their own for whatever an action points to. */
  method NewCells(v: ActionVal) returns (d: DecisionCell?, e: EffectCell?, t: TimeCell?)
    ensures if v.decision.None? then d == null else d != null && fresh(d.Footprint()) && d.Val() == v.decision.value
    ensures if v.simulated.None? then e == null else e != null && fresh(e.Footprint()) && e.Val() == v.simulated.value
    ensures if v.executedAt.None? then t == null else t != null && fresh(t) && t.v == v.executedAt.value
  {
    d, e, t := null, null, null;
    if v.executedAt.Some? {
      t := new TimeCell(v.executedAt.value);
    }
    if v.decision.Some? {
      d := new DecisionCell(v.decision.value);
    }
    if v.simulated.Some? {
      e := new EffectCell(v.simulated.value);
    }
  }

  /** The scalar fields of an action, and the three pointers it may hold. */
  class Action {
    var scalars: ActionVal
    var decision: DecisionCell?
    var simulated: EffectCell?
    var executedAt: TimeCell?

    constructor (v: ActionVal)
      ensures Val() == v && fresh(Footprint())
    {
      scalars := v.(decision := None, simulated := None, executedAt := None);
      var d, e, t := NewCells(v);
      decision, simulated, executedAt := d, e, t;
    }

    /** A struct copy: the three pointers are shared with the original. */
    constructor Shallow(o: Action)
      ensures scalars == o.scalars && decision == o.decision && simulated == o.simulated && executedAt == o.executedAt
    {
      scalars, decision, simulated, executedAt := o.scalars, o.decision, o.simulated, o.executedAt;
    }

    ghost function Footprint(): (r: set<object>)
      reads this, decision, simulated
      ensures this in r
    {
      {this} + (if decision == null then {} else decision.Footprint())
             + (if simulated == null then {} else simulated.Footprint())
             + (if executedAt == null then {} else {executedAt})
    }

    /** What the footprint is read from lies within it. */
    lemma FootprintSupported()
      ensures (decision == null || decision in Footprint()) && (simulated == null || simulated in Footprint())
    {
    }

    ghost function Val(): (v: ActionVal)
      reads Footprint()
      ensures v.id == scalars.id
    {
      scalars.(decision := if decision == null then None else Some(decision.Val()),
               simulated := if simulated == null then None else Some(simulated.Val()),
               executedAt := if executedAt == null then None else Some(executedAt.v))
    }

    ghost predicate Held(v: ActionVal, repr: set<object>)
      reads repr
    {
      && this in repr && (decision != null ==> decision in repr) && (simulated != null ==> simulated in repr)
      && Footprint() <= repr && Val() == v
    }

    lemma HeldSays(v: ActionVal, repr: set<object>)
      requires Held(v, repr)
      ensures Val() == v && Footprint() <= repr && scalars.id == v.id
    {
    }

    lemma HeldGrows(v: ActionVal, repr: set<object>, more: set<object>)
      requires Held(v, repr) && repr <= more
      ensures Held(v, more)
    {
    }

    method CopyPointers() returns (d: DecisionCell?, e: EffectCell?, t: TimeCell?)
      ensures if decision == null then d == null else d != null && fresh(d.Footprint()) && d.Val() == decision.Val()
      ensures if simulated == null then e == null else e != null && fresh(e.Footprint()) && e.Val() == simulated.Val()
      ensures if executedAt == null then t == null else t != null && fresh(t) && t.v == executedAt.v
    {
      d, e, t := null, null, null;
      if executedAt != null {
        t := new TimeCell(executedAt.v);
      }
      if decision != null {
        d := decision.DeepCopy();
      }
      if simulated != null {
        e := simulated.DeepCopy();
      }
    }

    /** A struct copy whose pointers, and the slices behind them, are then replaced. */
    method DeepCopy() returns (c: Action)
      ensures c.Held(Val(), c.Footprint()) && fresh(c.Footprint())
    {
      var d, e, t := CopyPointers();
      c := new Action.Shallow(this);
      c.decision, c.simulated, c.executedAt := d, e, t;
      assert c.Val() == Val();
    }
  }

  /** The records lie within `pool`, say `vals`, and share nothing with each other. */
  ghost predicate ActionsApart(actions: seq<Action>, vals: seq<ActionVal>, pool: set<object>): (apart: bool)
    reads pool
    ensures apart ==> |actions| == |vals|
  {
    && |actions| == |vals|
    && (forall i :: 0 <= i < |actions| ==> actions[i].Held(vals[i], pool))
    && (forall i, j :: 0 <= i < j < |actions| ==> actions[i].Footprint() !! actions[j].Footprint())
  }

  lemma OneMoreActionApart(actions: seq<Action>, vals: seq<ActionVal>, pool: set<object>, one: Action, v: ActionVal)
    requires ActionsApart(actions, vals, pool) && one.Held(v, one.Footprint()) && one.Footprint() !! pool
    ensures ActionsApart(actions + [one], vals + [v], pool + one.Footprint())
  {
    hide Action.Held, Action.Footprint, Action.Val;
    var all := pool + one.Footprint();
    one.HeldGrows(v, one.Footprint(), all);
    forall i | 0 <= i < |actions| ensures actions[i].Held(vals[i], all) && actions[i].Footprint() <= pool {
      actions[i].HeldGrows(vals[i], pool, all);
      actions[i].HeldSays(vals[i], pool);
    }
  }

  lemma ActionApart(actions: seq<Action>, vals: seq<ActionVal>, pool: set<object>, i: nat)
    requires ActionsApart(actions, vals, pool) && i < |actions|
    ensures |vals| == |actions| && actions[i].Held(vals[i], pool) && actions[i].Val() == vals[i] && actions[i].Footprint() <= pool
  {
    actions[i].HeldSays(vals[i], pool);
  }

  lemma JoinActionsApart(a: seq<Action>, va: seq<ActionVal>, pa: set<object>, b: seq<Action>, vb: seq<ActionVal>, pb: set<object>)
    requires ActionsApart(a, va, pa) && ActionsApart(b, vb, pb) && pa !! pb
    ensures ActionsApart(a + b, va + vb, pa + pb)
  {
    hide Action.Held, Action.Val, Action.Footprint;
    forall i | 0 <= i < |a| ensures a[i].Held(va[i], pa + pb) && a[i].Footprint() <= pa {
      a[i].HeldGrows(va[i], pa, pa + pb);
      a[i].HeldSays(va[i], pa);
    }
    forall i | 0 <= i < |b| ensures b[i].Held(vb[i], pa + pb) && b[i].Footprint() <= pb {
      b[i].HeldGrows(vb[i], pb, pa + pb);
      b[i].HeldSays(vb[i], pb);
    }
  }

  /** Deep copies of records, sharing nothing with anyone. */
  method CopyActions(actions: seq<Action>, ghost vals: seq<ActionVal>, ghost repr: set<object>)
    returns (copies: seq<Action>, ghost pool: set<object>)
    requires |actions| == |vals| && forall i :: 0 <= i < |actions| ==> actions[i].Held(vals[i], repr)
    ensures ActionsApart(copies, vals, pool) && fresh(pool)
  {
    copies, pool := [], {};
    for i := 0 to |actions|
      invariant ActionsApart(copies, vals[..i], pool) && fresh(pool)
      invariant forall j :: 0 <= j < |actions| ==> actions[j].Held(vals[j], repr)
    {
      hide ActionsApart, Action.Held, Action.Val, Action.Footprint;
      assert vals[..i + 1] == vals[..i] + [vals[i]];
      actions[i].HeldSays(vals[i], repr);
      var c := actions[i].DeepCopy();
      OneMoreActionApart(copies, vals[..i], pool, c, vals[i]);
      copies, pool := copies + [c], pool + c.Footprint();
    }
    assert vals[..|actions|] == vals;
  }

  method NewAction(actions: seq<Action>, ghost vals: seq<ActionVal>, ghost pool: set<object>, v: ActionVal)
    returns (more: seq<Action>, ghost pool': set<object>)
    requires ActionsApart(actions, vals, pool)
    ensures ActionsApart(more, vals + [v], pool') && pool <= pool' && fresh(pool' - pool)
  {
    hide ActionsApart;
    var one := new Action(v);
    assert one.Held(v, one.Footprint());
    OneMoreActionApart(actions, vals, pool, one, v);
    more, pool' := actions + [one], pool + one.Footprint();
  }
}

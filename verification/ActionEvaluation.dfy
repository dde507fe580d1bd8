/** Evaluating a proposed response action: look it up, judge it, record it. */
module ActionEvaluation {
  import opened Events
  import opened Audit
  import opened Policy
  import opened Store

  const SIMULATE := "simulate"
  const EXECUTE := "execute"

  const SIMULATED := "simulated"
  const REQUIRES_APPROVAL := "requires_approval"
  const DENIED := "denied"
  const REJECTED := "rejected"

  const POLICY_EVALUATED := "policy.evaluated"
  const RESPONSE_SIMULATED := "response.simulated"
  const RESPONSE_DENIED := "response.denied"
  const RESPONSE_REJECTED := "response.rejected"
  const RESPONSE_NEEDS_APPROVAL := "response.requires_approval"

  const RESULT_ALLOWED := "allowed"
  const RESULT_REQUIRES_APPROVAL := "requires_approval"
  const RESULT_DENIED := "denied"
  const RESULT_INVALID_ACTION := "invalid_action"
  const RESULT_VALIDATION_FAILED := "validation_failed"
  const RESULT_POLICY_UNAVAILABLE := "policy_unavailable"
  const RESULT_POLICY_TIMEOUT := "policy_timeout"
  const RESULT_INTERNAL_ERROR := "internal_error"

  const OUTCOME_SUCCESS := "success"
  const OUTCOME_DENIED := "denied"
  const OUTCOME_FAILURE := "failure"
  const OUTCOME_PENDING := "pending"

  const SUBJECT_ACTION := "action"
  const SYSTEM_ACTOR := "system:griefer"
  const RESULT := "result"

  /** The server-owned definition of an action; the template renders a count. */
  datatype ActionSpec = ActionSpec(typ: string, destructive: bool, reversible: bool, rollbackAction: string,
                                   template: nat -> string)

  datatype Config = Config(catalog: map<string, ActionSpec>, kernel: Kernel, revision: string)

  datatype Request = Request(incidentID: string, actionType: string, mode: string, principal: string)

  /** What one evaluation depends on besides the request: generated identifiers,
      the clock, whether the store answers, the policy's verdict, and the target
      and entities the incident's context offers. */
  datatype Trial = Trial(actionSuffix: string, auditSuffixes: seq<string>, now: int, loadFails: bool, saveFails: bool,
                         verdict: Verdict, target: string, entities: seq<string>)

  datatype EvalError = NoEvalError | UnknownActionType | InvalidMode | IncidentNotFound | LoadFailed

  /** Everything one evaluation hands over to be stored, and what it answers. */
  datatype Record = Record(action: Option<ActionVal>, entries: seq<EntryVal>, error: EvalError)

  predicate ModeValid(mode: string) {
    mode == SIMULATE || mode == EXECUTE
  }

  function ActorOf(req: Request): string {
    if req.principal == "" then SYSTEM_ACTOR else req.principal
  }

  function ActionID(t: Trial): string {
    "act-" + t.actionSuffix
  }

  function Draft(req: Request, t: Trial): ActionVal {
    ActionVal(ActionID(t), req.incidentID, req.actionType, if req.mode == "" then SIMULATE else req.mode, "",
              ActorOf(req), "", false, false, "", "", t.now, None, None, None)
  }

  /** The audit shape every outcome shares. */
  function BaseEntry(cfg: Config, req: Request, t: Trial, result: string, verb: string, outcome: string,
                     reason: string, extra: map<string, string>): EntryVal
  {
    EntryVal("", 0, 0, ActorOf(req), verb, SUBJECT_ACTION, ActionID(t), outcome, reason,
             Some(map[RESULT := result, "incident_id" := req.incidentID, "action_type" := req.actionType,
                      "mode" := Draft(req, t).mode, "response_action_id" := ActionID(t),
                      "policy_revision" := cfg.revision] + extra))
  }

  function JoinReasons(reasons: seq<string>): string {
    if |reasons| == 0 then "No reason was recorded; GRIEFER treats this as a denial."
    else if |reasons| == 1 then reasons[0]
    else JoinReasons(reasons[..|reasons| - 1]) + " " + reasons[|reasons| - 1]
  }

  function SimulatedEffect(spec: ActionSpec, target: string, entities: seq<string>): Effect {
    var affected := if target != "" then [target] else entities;
    Effect(spec.template(|affected|), affected,
           if spec.rollbackAction == "" then "No rollback exists for this action; it would require human approval before execution."
           else "Run \"" + spec.rollbackAction + "\" to reverse this action.")
  }

  function NoActuatorReason(): string {
    "GRIEFER v0.1 implements simulation only; no actuator exists for mode \"execute\"."
  }

  function UnrecognisedReason(): string {
    "Policy Kernel returned an unrecognised effect; GRIEFER denies by default."
  }

  /** An action once a decision has been applied to it. */
  function Applied(a: ActionVal, spec: ActionSpec, d: Decision, entities: seq<string>): ActionVal {
    if d.effect == DENY then a.(status := DENIED, reason := JoinReasons(d.reasons))
    else if d.effect == REQUIRE_APPROVAL then a.(status := REQUIRES_APPROVAL, reason := JoinReasons(d.reasons))
    else if d.effect == ALLOW && a.mode != SIMULATE then
      a.(status := REQUIRES_APPROVAL,
         reason := NoActuatorReason())
    else if d.effect == ALLOW then
      a.(status := SIMULATED, reason := JoinReasons(d.reasons),
         simulated := Some(SimulatedEffect(spec, a.targetEntityID, entities)))
    else a.(status := DENIED, reason := UnrecognisedReason())
  }

  function EvaluationResult(status: string, err: KernelError): string {
    if err == TimedOut then RESULT_POLICY_TIMEOUT
    else if err == Failed then RESULT_POLICY_UNAVAILABLE
    else if status == SIMULATED then RESULT_ALLOWED
    else if status == REQUIRES_APPROVAL then RESULT_REQUIRES_APPROVAL
    else RESULT_DENIED
  }

  function AuditActionFor(status: string): string {
    if status == SIMULATED then RESPONSE_SIMULATED
    else if status == REQUIRES_APPROVAL then RESPONSE_NEEDS_APPROVAL
    else if status == REJECTED then RESPONSE_REJECTED
    else RESPONSE_DENIED
  }

  function AuditOutcomeFor(effect: string): string {
    if effect == ALLOW then OUTCOME_SUCCESS
    else if effect == REQUIRE_APPROVAL then OUTCOME_PENDING
    else OUTCOME_DENIED
  }

  function BoolLabel(b: bool): string {
    if b then "true" else "false"
  }

  function DecisionDetails(req: Request, spec: ActionSpec, d: Decision): map<string, string> {
    map["incident_id" := req.incidentID, "action_type" := spec.typ, "effect" := d.effect,
        "fail_closed" := BoolLabel(d.failClosed), "engine" := d.engine, "policy_version" := d.policyVersion,
        "reversible" := BoolLabel(spec.reversible), "destructive" := BoolLabel(spec.destructive),
        "rollback_action" := spec.rollbackAction]
  }

  function NotLoadedReason(): string {
    "The incident could not be loaded."
  }

  function NoIncidentReason(): string {
    "The referenced incident does not exist."
  }

  function UnknownActionReason(actionType: string): string {
    "Action type \"" + actionType + "\" is not defined in the GRIEFER action catalog."
  }

  function InvalidModeReason(mode: string): string {
    "Response mode \"" + mode + "\" is not recognised."
  }

  /** The action as it stands once it is judged. */
  function Judged(cfg: Config, req: Request, t: Trial, spec: ActionSpec): ActionVal {
    var d := Evaluate(cfg.kernel, t.verdict).0;
    Applied(Draft(req, t).(reversible := spec.reversible, destructive := spec.destructive,
                           rollbackAction := spec.rollbackAction, targetEntityID := t.target, decision := Some(d)),
            spec, d, t.entities)
  }

  function JudgedRecord(cfg: Config, req: Request, t: Trial, spec: ActionSpec): Record {
    var (d, err) := Evaluate(cfg.kernel, t.verdict);
    var a := Judged(cfg, req, t, spec);
    var result := EvaluationResult(a.status, err);
    Record(Some(a),
           [BaseEntry(cfg, req, t, result, POLICY_EVALUATED, AuditOutcomeFor(d.effect),
                      JoinReasons(d.reasons), DecisionDetails(req, spec, d)),
            BaseEntry(cfg, req, t, result, AuditActionFor(a.status), AuditOutcomeFor(d.effect), a.reason, map[])],
           NoEvalError)
  }

  /** What comes of an action the catalog or the mode rules out. */
  function Refused(cfg: Config, req: Request, t: Trial): Record {
    var unknown := req.actionType !in cfg.catalog;
    var reason := if unknown then UnknownActionReason(req.actionType) else InvalidModeReason(req.mode);
    Record(Some(Draft(req, t).(status := REJECTED, reason := reason)),
           [BaseEntry(cfg, req, t, if unknown then RESULT_INVALID_ACTION else RESULT_VALIDATION_FAILED,
                      RESPONSE_REJECTED, OUTCOME_DENIED, reason, map[])],
           if unknown then UnknownActionType else InvalidMode)
  }

  /** What comes of an incident that is missing or cannot be loaded. */
  function Missing(cfg: Config, req: Request, t: Trial): Record {
    if t.loadFails then
      Record(None, [BaseEntry(cfg, req, t, RESULT_INTERNAL_ERROR, RESPONSE_REJECTED, OUTCOME_FAILURE,
                              NotLoadedReason(), map[])], LoadFailed)
    else
      Record(None, [BaseEntry(cfg, req, t, RESULT_VALIDATION_FAILED, RESPONSE_REJECTED, OUTCOME_DENIED,
                              NoIncidentReason(), map[])], IncidentNotFound)
  }

  /** What one evaluation amounts to, given which incidents exist. */
  function Evaluated(cfg: Config, req: Request, t: Trial, known: set<string>): Record {
    if req.actionType !in cfg.catalog || !ModeValid(Draft(req, t).mode) then Refused(cfg, req, t)
    else if t.loadFails || req.incidentID !in known then Missing(cfg, req, t)
    else JudgedRecord(cfg, req, t, cfg.catalog[req.actionType])
  }

  // -------------------------------------------------------------------------
  // Preparing entries
  // -------------------------------------------------------------------------

  predicate Preparable(v: EntryVal) {
    v.action != "" && v.outcome != ""
  }

  function Stamp(v: EntryVal, suffix: string, now: int): EntryVal {
    v.(id := "aud-" + suffix, timestamp := now, actor := if v.actor == "" then SYSTEM_ACTOR else v.actor)
  }

  /** The identifiers generated for the entries, one after another. */
  function AuditSuffix(t: Trial, n: nat): string {
    if n < |t.auditSuffixes| then t.auditSuffixes[n] else ""
  }

  /** The entries that survive preparation, identified and timed. */
  function Prepared(entries: seq<EntryVal>, t: Trial): seq<EntryVal>
  {
    if entries == [] then []
    else
      var n := |entries| - 1;
      Prepared(entries[..n], t) + if Preparable(entries[n]) then [Stamp(entries[n], AuditSuffix(t, n), t.now)] else []
  }

  /** One persisted evaluation: the action and its entries, or nothing at all. */
  ghost predicate Persisted(action: Option<ActionVal>, entries: seq<EntryVal>, t: Trial,
                            decided: map<string, ActionVal>, log: seq<EntryVal>,
                            decided': map<string, ActionVal>, log': seq<EntryVal>)
  {
    if t.saveFails then decided' == decided && log' == log
    else
      && decided' == (if action.None? then decided else decided[action.value.id := action.value])
      && Logged(log, Prepared(entries, t), log')
  }

  lemma AppliedKeepsID(a: ActionVal, spec: ActionSpec, d: Decision, entities: seq<string>)
    ensures Applied(a, spec, d, entities).id == a.id
  {
    hide JoinReasons, SimulatedEffect, NoActuatorReason, UnrecognisedReason;
  }

  method Prepare(v: EntryVal, suffix: string, now: int) returns (r: Option<EntryVal>)
    ensures r == if Preparable(v) then Some(Stamp(v, suffix, now)) else None
  {
    if v.action == "" {
      return None;
    }
    if v.outcome == "" {
      return None;
    }
    var entry := v.(id := "aud-" + suffix, timestamp := now);
    if entry.actor == "" {
      entry := entry.(actor := SYSTEM_ACTOR);
    }
    r := Some(entry);
  }

  /** Prepares each entry on its own record, skipping those that cannot be. */
  method PrepareAll(entries: seq<EntryVal>, t: Trial) returns (prepared: seq<Entry>, ghost pool: set<object>)
    ensures EntriesApart(prepared, Prepared(entries, t), pool) && fresh(pool)
  {
    prepared, pool := [], {};
    for i := 0 to |entries|
      invariant EntriesApart(prepared, Prepared(entries[..i], t), pool) && fresh(pool)
    {
      assert entries[..i + 1][..i] == entries[..i];
      var p := Prepare(entries[i], AuditSuffix(t, i), t.now);
      if p.None? {
        continue;
      }
      prepared, pool := NewEntry(prepared, Prepared(entries[..i], t), pool, p.value);
    }
    assert entries[..|entries|] == entries;
  }

  lemma {:induction false} PreparedIDs(entries: seq<EntryVal>, t: Trial)
    ensures forall e :: e in Prepared(entries, t) ==> e.id != ""
  {
    if entries != [] {
      PreparedIDs(entries[..|entries| - 1], t);
    }
  }

  class Evaluator {
    const store: MemoryStore
    const cfg: Config

    constructor (store: MemoryStore, cfg: Config)
      ensures this.store == store && this.cfg == cfg
    {
      this.store, this.cfg := store, cfg;
    }

    /** The only place an action gains an effect. */
    method ApplyDecision(action: Action, spec: ActionSpec, d: Decision, entities: seq<string>)
      modifies action
      ensures action.Val() == Applied(old(action.Val()), spec, d, entities)
      ensures action.decision == old(action.decision) && action.executedAt == old(action.executedAt)
      ensures action.simulated == old(action.simulated) || (action.simulated != null && fresh(action.simulated.Footprint()))
    {
      hide JoinReasons, SimulatedEffect, NoActuatorReason, UnrecognisedReason, DecisionCell.Val, EffectCell.Val;
      if d.effect == DENY {
        action.scalars := action.scalars.(status := DENIED, reason := JoinReasons(d.reasons));
      } else if d.effect == REQUIRE_APPROVAL {
        action.scalars := action.scalars.(status := REQUIRES_APPROVAL, reason := JoinReasons(d.reasons));
      } else if d.effect == ALLOW {
        if action.scalars.mode != SIMULATE {
          action.scalars := action.scalars.(status := REQUIRES_APPROVAL, reason := NoActuatorReason());
          return;
        }
        action.scalars := action.scalars.(status := SIMULATED, reason := JoinReasons(d.reasons));
        var effect := SimulatedEffect(spec, action.scalars.targetEntityID, entities);
        action.simulated := new EffectCell(effect);
      } else {
        action.scalars := action.scalars.(status := DENIED, reason := UnrecognisedReason());
      }
    }

    method WritePrepared(action: Action?, prepared: seq<Entry>, ghost vals: seq<EntryVal>, ghost pool: set<object>)
      requires store.Valid() && EntriesApart(prepared, vals, pool) && pool !! store.Repr() && store !in pool
      requires forall v :: v in vals ==> v.id != ""
      requires action != null ==> action.Footprint() !! store.Repr() && action.scalars.id != ""
      modifies store`actions, store`actionOrder, store`decided, store`actionRepr, pool
      modifies store`auditLog, store`auditSeq, store`log, store`auditRepr
      ensures store.Valid()
      ensures store.decided == if action == null then old(store.decided) else old(store.decided)[action.scalars.id := old(action.Val())]
      ensures Logged(old(store.log), vals, store.log)
    {
      hide EntriesApart, MemoryStore.Valid, Action.Val;
      assert |vals| == |prepared|;
      forall i | 0 <= i < |prepared|
        ensures prepared[i].Val() == vals[i] && prepared[i].Footprint() <= pool && prepared[i].id == vals[i].id
      {
        EntryApart(prepared, vals, pool, i);
      }
      var ok := store.SaveActionWithAudit(action, prepared, vals);
    }

    /** Writes the action and its entries as one unit; a failure is not reported. */
    method PersistEvaluation(action: Action?, entries: seq<EntryVal>, t: Trial)
      requires store.Valid()
      requires action != null ==> action.Footprint() !! store.Repr() && action.scalars.id != ""
      modifies store`actions, store`actionOrder, store`decided, store`actionRepr
      modifies store`auditLog, store`auditSeq, store`log, store`auditRepr
      ensures store.Valid()
      ensures Persisted(if action == null then None else Some(old(action.Val())), entries, t,
                        old(store.decided), old(store.log), store.decided, store.log)
      ensures action != null ==> action.Val() == old(action.Val())
    {
      hide MemoryStore.Valid, Action.Val, EntriesApart, Prepared;
      var prepared, pool := PrepareAll(entries, t);
      assert unchanged(store) && unchanged(store.Repr());
      PreparedIDs(entries, t);
      if !t.saveFails {
        WritePrepared(action, prepared, Prepared(entries, t), pool);
      }
    }

    /** Marks an action refused before the policy is asked. */
    method Refuse(action: Action, reason: string)
      modifies action
      ensures action.Val() == old(action.Val()).(status := REJECTED, reason := reason)
      ensures action.Footprint() == old(action.Footprint()) && action.scalars.id == old(action.scalars.id)
    {
      action.scalars := action.scalars.(status := REJECTED, reason := reason);
    }

    /** Runs a proposed action through the policy and records the outcome. */
    method EvaluateAction(req: Request, t: Trial) returns (action: Action?, error: EvalError)
      requires store.Valid()
      modifies store`actions, store`actionOrder, store`decided, store`actionRepr
      modifies store`auditLog, store`auditSeq, store`log, store`auditRepr
      ensures store.Valid() && store.held == old(store.held)
      ensures var r := Evaluated(cfg, req, t, store.held.Keys);
        && Persisted(r.action, r.entries, t, old(store.decided), old(store.log), store.decided, store.log)
        && error == r.error
        && (action == null <==> r.action.None?)
        && (action != null ==> action.Val() == r.action.value)
    {
      hide MemoryStore.Valid, Action.Val, Persisted, Applied, BaseEntry, UnknownActionReason, InvalidModeReason, JudgedRecord,
        Judged, Refused, Missing, ActorOf, Action.Footprint;
      action := new Action(Draft(req, t));
      assert unchanged(store) && unchanged(store.Repr());
      if req.actionType !in cfg.catalog || !ModeValid(Draft(req, t).mode) {
        error := RefuseAction(action, req, t);
        return;
      }
      var found := Found(action, req, t);
      assert unchanged(store) && unchanged(store.Repr());
      if !found {
        error := ReportMissing(req, t);
        action := null;
        return;
      }
      Judge(action, req, t, cfg.catalog[req.actionType]);
      error := NoEvalError;
    }

    /** Whether the incident could be loaded; only its existence matters here. */
    method Found(ghost action: Action, req: Request, t: Trial) returns (found: bool)
      requires store.Valid()
      ensures action.Val() == old(action.Val())
      ensures found <==> !t.loadFails && req.incidentID in store.held
    {
      found := false;
      if !t.loadFails {
        var inc := store.GetIncident(req.incidentID);
        found := inc.Some?;
      }
    }

    /** Records that the incident is missing or could not be loaded. */
    method ReportMissing(req: Request, t: Trial) returns (error: EvalError)
      requires store.Valid()
      modifies store`actions, store`actionOrder, store`decided, store`actionRepr
      modifies store`auditLog, store`auditSeq, store`log, store`auditRepr
      ensures store.Valid()
      ensures var r := Missing(cfg, req, t);
        && r.action == None && error == r.error
        && Persisted(None, r.entries, t, old(store.decided), old(store.log), store.decided, store.log)
    {
      hide MemoryStore.Valid, Persisted, BaseEntry;
      if t.loadFails {
        PersistEvaluation(null, [BaseEntry(cfg, req, t, RESULT_INTERNAL_ERROR, RESPONSE_REJECTED, OUTCOME_FAILURE,
                                           NotLoadedReason(), map[])], t);
        error := LoadFailed;
      } else {
        PersistEvaluation(null, [BaseEntry(cfg, req, t, RESULT_VALIDATION_FAILED, RESPONSE_REJECTED, OUTCOME_DENIED,
                                           NoIncidentReason(), map[])], t);
        error := IncidentNotFound;
      }
    }

    /** Refuses an action the catalog or the mode rules out. */
    method RefuseAction(action: Action, req: Request, t: Trial) returns (error: EvalError)
      requires store.Valid()
      requires action.Footprint() !! store.Repr() && store !in action.Footprint()
      requires action.Val() == Draft(req, t) && action.scalars.id != ""
      requires req.actionType !in cfg.catalog || !ModeValid(Draft(req, t).mode)
      modifies action, store`actions, store`actionOrder, store`decided, store`actionRepr
      modifies store`auditLog, store`auditSeq, store`log, store`auditRepr
      ensures store.Valid()
      ensures var r := Refused(cfg, req, t);
        && r.action == Some(action.Val()) && error == r.error
        && Persisted(r.action, r.entries, t, old(store.decided), old(store.log), store.decided, store.log)
    {
      hide MemoryStore.Valid, Action.Val, Persisted, BaseEntry, UnknownActionReason, InvalidModeReason, ActionID, ActorOf;
      if req.actionType !in cfg.catalog {
        var reason := UnknownActionReason(req.actionType);
        Refuse(action, reason);
        PersistEvaluation(action, [BaseEntry(cfg, req, t, RESULT_INVALID_ACTION, RESPONSE_REJECTED, OUTCOME_DENIED, reason, map[])], t);
        error := UnknownActionType;
      } else {
        var reason := InvalidModeReason(req.mode);
        Refuse(action, reason);
        PersistEvaluation(action, [BaseEntry(cfg, req, t, RESULT_VALIDATION_FAILED, RESPONSE_REJECTED, OUTCOME_DENIED, reason, map[])], t);
        error := InvalidMode;
      }
    }

    /** Consults the kernel, applies its decision, and records both entries. */
    method Judge(action: Action, req: Request, t: Trial, spec: ActionSpec)
      requires store.Valid()
      requires action.Footprint() !! store.Repr() && store !in action.Footprint() && action.Val() == Draft(req, t)
      modifies action, store`actions, store`actionOrder, store`decided, store`actionRepr
      modifies store`auditLog, store`auditSeq, store`log, store`auditRepr
      ensures store.Valid() && action.Val() == Judged(cfg, req, t, spec)
      ensures var r := JudgedRecord(cfg, req, t, spec);
        && r.action == Some(action.Val()) && r.error == NoEvalError
        && Persisted(r.action, r.entries, t, old(store.decided), old(store.log), store.decided, store.log)
    {
      hide MemoryStore.Valid, Action.Val, Persisted, Judged, BaseEntry, ActionID, Draft, Evaluate, DecisionDetails,
        JoinReasons, EvaluationResult, AuditActionFor, AuditOutcomeFor;
      var (decision, kernelError) := Evaluate(cfg.kernel, t.verdict);
      Decide(action, req, t, spec, decision);
      assert action.Footprint() !! store.Repr();
      assert unchanged(store) && unchanged(store.Repr());
      var result := EvaluationResult(action.scalars.status, kernelError);
      PersistEvaluation(action,
        [BaseEntry(cfg, req, t, result, POLICY_EVALUATED, AuditOutcomeFor(decision.effect),
                   JoinReasons(decision.reasons), DecisionDetails(req, spec, decision)),
         BaseEntry(cfg, req, t, result, AuditActionFor(action.scalars.status), AuditOutcomeFor(decision.effect),
                   action.scalars.reason, map[])],
        t);
    }

    method Decide(action: Action, req: Request, t: Trial, spec: ActionSpec, decision: Decision)
      requires decision == Evaluate(cfg.kernel, t.verdict).0
      requires action.Val() == Draft(req, t)
      modifies action
      ensures action.Val() == Judged(cfg, req, t, spec) && action.scalars.id != ""
      ensures action.scalars.status == action.Val().status && action.scalars.reason == action.Val().reason
      ensures fresh(action.Footprint() - old(action.Footprint()))
    {
      hide Evaluate, Applied, ActorOf;
      action.scalars := action.scalars.(reversible := spec.reversible, destructive := spec.destructive,
                                        rollbackAction := spec.rollbackAction, targetEntityID := t.target);
      action.decision := new DecisionCell(decision);
      AppliedKeepsID(action.Val(), spec, decision, t.entities);
      ApplyDecision(action, spec, decision, t.entities);
    }
  }
}

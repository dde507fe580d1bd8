/** Actions and their audit trail over whole runs: whatever the policy answers and
    whichever writes fail, what is stored and what the trail says agree. */
module Ledger {
  import opened Events
  import opened Audit
  import opened Policy
  import opened Store
  import opened ActionEvaluation

  /** The part of the store the ledger is about. */
  datatype State = State(decided: map<string, ActionVal>, log: seq<EntryVal>)

  const BLANK := State(map[], [])

  datatype Step =
    | Evaluation(req: Request, t: Trial, known: set<string>)
    // Any audit entry about something other than an action.
    | OtherEntry(v: EntryVal)

  predicate IsAbout(e: EntryVal, id: string) {
    e.subjectType == SUBJECT_ACTION && e.subjectID == id
  }

  /** Generated identifiers are new. */
  predicate NewAction(s: State, t: Trial) {
    ActionID(t) !in s.decided && forall e :: e in s.log ==> !IsAbout(e, ActionID(t))
  }

  ghost predicate Takes(cfg: Config, s: State, step: Step, s': State) {
    match step
    case Evaluation(req, t, known) =>
      var r := Evaluated(cfg, req, t, known);
      NewAction(s, t) && Persisted(r.action, r.entries, t, s.decided, s.log, s'.decided, s'.log)
    case OtherEntry(v) =>
      v.subjectType != SUBJECT_ACTION && s'.decided == s.decided && s'.log == s.log + [Stamped(v, |s.log| + 1)]
  }

  // -------------------------------------------------------------------------
  // Agreement
  // -------------------------------------------------------------------------

  /** Where the log speaks about an action. */
  ghost function About(log: seq<EntryVal>, id: string): set<nat> {
    set i: nat | i < |log| && IsAbout(log[i], id)
  }

  function ResultOf(e: EntryVal): string {
    if e.details.Some? && RESULT in e.details.value then e.details.value[RESULT] else ""
  }

  /** What is true of every stored action by itself. */
  predicate Sound(a: ActionVal) {
    && a.executedAt == None
    && (a.simulated.Some? <==> a.status == SIMULATED)
    && (a.decision.None? <==> a.status == REJECTED)
    && (a.status == SIMULATED ==> a.mode == SIMULATE && a.decision.value.effect == ALLOW && a.decision.value.allow
                                  && !a.decision.value.failClosed && a.decision.value.reasons != [])
    && (a.decision.Some? && a.decision.value.failClosed ==> a.status == DENIED)
    && (a.decision.Some? ==> a.status in {SIMULATED, REQUIRES_APPROVAL, DENIED})
  }

  /** Two entries that tell the story of a judged action. */
  predicate Tells(first: EntryVal, second: EntryVal, a: ActionVal) {
    && first.action == POLICY_EVALUATED
    && (second.action == RESPONSE_SIMULATED <==> a.status == SIMULATED)
    && (second.action == RESPONSE_NEEDS_APPROVAL <==> a.status == REQUIRES_APPROVAL)
    && (second.action == RESPONSE_DENIED <==> a.status == DENIED)
    && ResultOf(first) == ResultOf(second)
    && (ResultOf(first) == RESULT_ALLOWED <==> a.status == SIMULATED)
    && (ResultOf(first) in {RESULT_POLICY_TIMEOUT, RESULT_POLICY_UNAVAILABLE} <==> a.decision.Some? && a.decision.value.failClosed)
    && first.actor == second.actor == a.requestedBy
  }

  ghost predicate RejectedAt(log: seq<EntryVal>, id: string, i: nat) {
    i < |log| && About(log, id) == {i} && log[i].action == RESPONSE_REJECTED
  }

  ghost predicate ToldAt(log: seq<EntryVal>, a: ActionVal, i: nat) {
    i + 1 < |log| && About(log, a.id) == {i, i + 1} && Tells(log[i], log[i + 1], a)
  }

  ghost predicate Accounted(log: seq<EntryVal>, a: ActionVal) {
    if a.status == REJECTED then exists i: nat :: RejectedAt(log, a.id, i) else exists i: nat :: ToldAt(log, a, i)
  }

  ghost predicate ActionsAccounted(s: State) {
    forall id :: id in s.decided ==> s.decided[id].id == id && Sound(s.decided[id]) && Accounted(s.log, s.decided[id])
  }

  /** An entry about an action that was never stored is a lone refusal. */
  ghost predicate OrphansRefused(s: State) {
    forall i :: 0 <= i < |s.log| && s.log[i].subjectType == SUBJECT_ACTION && s.log[i].subjectID !in s.decided ==>
      RejectedAt(s.log, s.log[i].subjectID, i)
  }

  predicate Numbered(log: seq<EntryVal>) {
    forall i :: 0 <= i < |log| ==> log[i].sequence == i + 1
  }

  ghost predicate Agreement(s: State) {
    ActionsAccounted(s) && OrphansRefused(s) && Numbered(s.log)
  }

  // -------------------------------------------------------------------------
  // One evaluation's record
  // -------------------------------------------------------------------------

  /** One refusal, or a told action; always about the action at hand. */
  ghost predicate Shaped(action: Option<ActionVal>, entries: seq<EntryVal>, id: string) {
    && (forall e :: e in entries ==> IsAbout(e, id))
    && (action.Some? ==> action.value.id == id && Sound(action.value))
    && if action.None? || action.value.status == REJECTED
       then |entries| == 1 && entries[0].action == RESPONSE_REJECTED
       else |entries| == 2 && Tells(entries[0], entries[1], action.value)
  }

  lemma ResultKept(cfg: Config, req: Request, t: Trial, result: string, verb: string, outcome: string,
                   reason: string, extra: map<string, string>)
    requires RESULT !in extra
    ensures ResultOf(BaseEntry(cfg, req, t, result, verb, outcome, reason, extra)) == result
  {
    hide Draft, ActionID;
  }

  lemma DetailsKeepResult(req: Request, spec: ActionSpec, d: Decision)
    ensures RESULT !in DecisionDetails(req, spec, d)
  {
  }

  /** A consistent decision makes a sound action: simulated only where simulation
      was asked for. */
  lemma AppliedSound(a: ActionVal, spec: ActionSpec, d: Decision, entities: seq<string>)
    requires a.executedAt == None && a.simulated == None && a.decision == Some(d)
    requires (d.allow <==> d.effect == ALLOW) && (d.failClosed ==> d.effect == DENY) && d.reasons != []
    ensures Sound(Applied(a, spec, d, entities))
    ensures Applied(a, spec, d, entities).status in {SIMULATED, REQUIRES_APPROVAL, DENIED}
    ensures d.effect == DENY ==> Applied(a, spec, d, entities).status == DENIED
  {
    hide JoinReasons, SimulatedEffect, NoActuatorReason, UnrecognisedReason;
  }

  lemma JudgedSound(cfg: Config, req: Request, t: Trial, spec: ActionSpec)
    ensures Sound(Judged(cfg, req, t, spec))
    ensures var a, (d, err) := Judged(cfg, req, t, spec), Evaluate(cfg.kernel, t.verdict);
      && a.id == ActionID(t) && a.decision == Some(d) && a.requestedBy == ActorOf(req)
      && a.status in {SIMULATED, REQUIRES_APPROVAL, DENIED}
      && (d.failClosed <==> err != NoError) && (err != NoError ==> a.status == DENIED)
  {
    hide Evaluate, JoinReasons, SimulatedEffect, ActionID, ActorOf, WellFormed, NoActuatorReason, UnrecognisedReason, Sound;
    KernelIsSafe(cfg.kernel, t.verdict);
    var d := Evaluate(cfg.kernel, t.verdict).0;
    AppliedSound(Draft(req, t).(reversible := spec.reversible, destructive := spec.destructive,
                                rollbackAction := spec.rollbackAction, targetEntityID := t.target, decision := Some(d)),
                 spec, d, t.entities);
  }

  lemma JudgedShaped(cfg: Config, req: Request, t: Trial, spec: ActionSpec)
    ensures var r := JudgedRecord(cfg, req, t, spec); Shaped(r.action, r.entries, ActionID(t))
  {
    JudgedSound(cfg, req, t, spec);
    DetailsKeepResult(req, spec, Evaluate(cfg.kernel, t.verdict).0);
    hide Evaluate, JoinReasons, Judged, DecisionDetails, Sound;
    var (d, err) := Evaluate(cfg.kernel, t.verdict);
    var a := Judged(cfg, req, t, spec);
    var result := EvaluationResult(a.status, err);
    ResultKept(cfg, req, t, result, POLICY_EVALUATED, AuditOutcomeFor(d.effect), JoinReasons(d.reasons), DecisionDetails(req, spec, d));
    ResultKept(cfg, req, t, result, AuditActionFor(a.status), AuditOutcomeFor(d.effect), a.reason, map[]);
    hide ResultOf;
  }

  /** Whatever is asked and whatever the policy answers. */
  lemma EvaluatedShaped(cfg: Config, req: Request, t: Trial, known: set<string>)
    ensures var r := Evaluated(cfg, req, t, known); Shaped(r.action, r.entries, ActionID(t))
    ensures forall e :: e in Evaluated(cfg, req, t, known).entries ==> Preparable(e) && e.actor != ""
  {
    hide JudgedRecord, UnknownActionReason, InvalidModeReason;
    if req.actionType in cfg.catalog {
      JudgedShaped(cfg, req, t, cfg.catalog[req.actionType]);
      JudgedPreparable(cfg, req, t, cfg.catalog[req.actionType]);
    }
    hide ActorOf;
  }

  lemma JudgedPreparable(cfg: Config, req: Request, t: Trial, spec: ActionSpec)
    ensures forall e :: e in JudgedRecord(cfg, req, t, spec).entries ==> Preparable(e) && e.actor != ""
  {
    hide Evaluate, JoinReasons, Judged, DecisionDetails;
  }

  /** An entry but for what stamping gives it. */
  predicate SameStory(e: EntryVal, f: EntryVal) {
    f == e.(id := f.id, sequence := f.sequence, timestamp := f.timestamp)
  }

  lemma {:induction false} NothingDropped(entries: seq<EntryVal>, t: Trial)
    requires forall e :: e in entries ==> Preparable(e) && e.actor != ""
    ensures |Prepared(entries, t)| == |entries|
    ensures forall i :: 0 <= i < |entries| ==> SameStory(entries[i], Prepared(entries, t)[i])
  {
    if entries != [] {
      NothingDropped(entries[..|entries| - 1], t);
    }
  }

  // -------------------------------------------------------------------------
  // Steps
  // -------------------------------------------------------------------------

  /** Later entries about other things change nothing for an action. */
  lemma AboutExtends(log: seq<EntryVal>, log': seq<EntryVal>, id: string)
    requires log <= log' && forall i :: |log| <= i < |log'| ==> !IsAbout(log'[i], id)
    ensures About(log', id) == About(log, id)
  {
  }

  lemma AccountedExtends(log: seq<EntryVal>, log': seq<EntryVal>, a: ActionVal)
    requires Accounted(log, a)
    requires log <= log' && forall i :: |log| <= i < |log'| ==> !IsAbout(log'[i], a.id)
    ensures Accounted(log', a)
  {
    AboutExtends(log, log', a.id);
    hide About, Tells;
    if a.status == REJECTED {
      var i: nat :| RejectedAt(log, a.id, i);
      assert RejectedAt(log', a.id, i);
    } else {
      var i: nat :| ToldAt(log, a, i);
      assert ToldAt(log', a, i);
    }
  }

  /** What one successful evaluation appends. */
  ghost predicate Appends(log: seq<EntryVal>, entries: seq<EntryVal>, log': seq<EntryVal>) {
    && |log'| == |log| + |entries| && log <= log'
    && (forall i :: 0 <= i < |entries| ==> SameStory(entries[i], log'[|log| + i]))
    && (forall i :: |log| <= i < |log'| ==> log'[i].sequence == i + 1)
  }

  lemma EvaluationAppends(cfg: Config, s: State, req: Request, t: Trial, known: set<string>, s': State)
    requires Takes(cfg, s, Evaluation(req, t, known), s') && !t.saveFails
    ensures var r := Evaluated(cfg, req, t, known);
      Shaped(r.action, r.entries, ActionID(t)) && Appends(s.log, r.entries, s'.log)
  {
    EvaluatedShaped(cfg, req, t, known);
    hide Evaluated, Shaped, Prepared, Preparable, ActionID;
    var r := Evaluated(cfg, req, t, known);
    NothingDropped(r.entries, t);
    forall i | |s.log| <= i < |s'.log| ensures s'.log[i].sequence == i + 1 {
      assert s'.log[|s.log| + (i - |s.log|)] == Stamped(Prepared(r.entries, t)[i - |s.log|], i + 1);
    }
  }

  lemma NewlyAbout(log: seq<EntryVal>, entries: seq<EntryVal>, log': seq<EntryVal>, id: string)
    requires Appends(log, entries, log') && (forall e :: e in entries ==> IsAbout(e, id))
    requires forall e :: e in log ==> !IsAbout(e, id)
    ensures forall i :: i in About(log', id) <==> |log| <= i < |log'|
    ensures forall i :: |log| <= i < |log'| ==> log'[i].subjectType == SUBJECT_ACTION && log'[i].subjectID == id
  {
    forall i | |log| <= i < |log'| ensures IsAbout(log'[i], id) {
      assert SameStory(entries[i - |log|], log'[|log| + (i - |log|)]);
      assert entries[i - |log|] in entries;
    }
    forall i: nat | i < |log'| ensures i in About(log', id) <==> |log| <= i {
      if i < |log| {
        assert log'[i] == log[i] && log[i] in log;
      }
    }
  }

  lemma TellsSame(e: EntryVal, f: EntryVal, a: ActionVal, e': EntryVal, f': EntryVal)
    requires Tells(e, f, a) && SameStory(e, e') && SameStory(f, f')
    ensures Tells(e', f', a)
  {
  }

  /** A freshly stored action, or a refusal without one, is accounted for. */
  lemma NewlyAccounted(log: seq<EntryVal>, r: Record, id: string, log': seq<EntryVal>)
    requires Shaped(r.action, r.entries, id) && Appends(log, r.entries, log')
    requires forall e :: e in log ==> !IsAbout(e, id)
    ensures r.action.Some? ==> Accounted(log', r.action.value)
    ensures r.action.None? ==> |log'| == |log| + 1 && RejectedAt(log', id, |log|)
  {
    NewlyAbout(log, r.entries, log', id);
    assert SameStory(r.entries[0], log'[|log| + 0]);
    assert |r.entries| == 2 ==> SameStory(r.entries[1], log'[|log| + 1]);
    hide Sound, Tells, About;
    if r.action.None? || r.action.value.status == REJECTED {
      assert About(log', id) == {|log|};
      assert RejectedAt(log', id, |log|);
    } else {
      assert About(log', id) == {|log|, |log| + 1};
      TellsSame(r.entries[0], r.entries[1], r.action.value, log'[|log|], log'[|log| + 1]);
      assert ToldAt(log', r.action.value, |log|);
    }
  }

  lemma ActionsStay(s: State, r: Record, id: string, s': State)
    requires ActionsAccounted(s) && Shaped(r.action, r.entries, id) && Appends(s.log, r.entries, s'.log)
    requires (forall e :: e in s.log ==> !IsAbout(e, id)) && id !in s.decided
    requires s'.decided == if r.action.None? then s.decided else s.decided[r.action.value.id := r.action.value]
    ensures ActionsAccounted(s')
  {
    hide About, Tells, Sound, Accounted, RejectedAt, SameStory;
    NewlyAbout(s.log, r.entries, s'.log, id);
    NewlyAccounted(s.log, r, id, s'.log);
    forall x | x in s'.decided ensures Accounted(s'.log, s'.decided[x]) {
      if x in s.decided {
        AccountedExtends(s.log, s'.log, s.decided[x]);
      }
    }
  }

  lemma OrphansStay(s: State, r: Record, id: string, s': State)
    requires OrphansRefused(s) && Shaped(r.action, r.entries, id) && Appends(s.log, r.entries, s'.log)
    requires (forall e :: e in s.log ==> !IsAbout(e, id)) && id !in s.decided
    requires s'.decided == if r.action.None? then s.decided else s.decided[r.action.value.id := r.action.value]
    ensures OrphansRefused(s')
  {
    hide About, Tells, Sound, Accounted, RejectedAt, SameStory;
    NewlyAbout(s.log, r.entries, s'.log, id);
    NewlyAccounted(s.log, r, id, s'.log);
    forall i | 0 <= i < |s'.log| && s'.log[i].subjectType == SUBJECT_ACTION && s'.log[i].subjectID !in s'.decided
      ensures RejectedAt(s'.log, s'.log[i].subjectID, i)
    {
      if i < |s.log| {
        assert s.log[i] in s.log;
        OrphanStays(s.log, s'.log, i);
      }
    }
  }

  lemma EvaluationKeeps(cfg: Config, s: State, req: Request, t: Trial, known: set<string>, s': State)
    requires Agreement(s) && Takes(cfg, s, Evaluation(req, t, known), s')
    ensures Agreement(s')
  {
    hide Evaluated, ActionID, Prepared, Shaped, Logged, ActionsAccounted, OrphansRefused;
    if !t.saveFails {
      var r, id := Evaluated(cfg, req, t, known), ActionID(t);
      EvaluationAppends(cfg, s, req, t, known, s');
      ActionsStay(s, r, id, s');
      OrphansStay(s, r, id, s');
    }
  }

  lemma OrphanStays(log: seq<EntryVal>, log': seq<EntryVal>, i: nat)
    requires log <= log' && i < |log| && RejectedAt(log, log[i].subjectID, i)
    requires forall k :: |log| <= k < |log'| ==> !IsAbout(log'[k], log[i].subjectID)
    ensures log'[i] == log[i] && RejectedAt(log', log'[i].subjectID, i)
  {
    AboutExtends(log, log', log[i].subjectID);
  }

  lemma OtherEntryKeeps(cfg: Config, s: State, v: EntryVal, s': State)
    requires Agreement(s) && Takes(cfg, s, OtherEntry(v), s')
    ensures Agreement(s')
  {
    hide Tells, Sound, About, Accounted, RejectedAt, Evaluated, Persisted;
    forall x | x in s'.decided ensures Accounted(s'.log, s'.decided[x]) {
      AccountedExtends(s.log, s'.log, s.decided[x]);
    }
    forall i | 0 <= i < |s'.log| && s'.log[i].subjectType == SUBJECT_ACTION && s'.log[i].subjectID !in s'.decided
      ensures RejectedAt(s'.log, s'.log[i].subjectID, i)
    {
      OrphanStays(s.log, s'.log, i);
    }
  }

  // -------------------------------------------------------------------------
  // Whole runs
  // -------------------------------------------------------------------------

  ghost predicate Run(cfg: Config, ss: seq<State>, steps: seq<Step>) {
    hide Takes;
    && |ss| == |steps| + 1 && ss[0] == BLANK
    && (forall i :: 0 <= i < |steps| ==> Takes(cfg, ss[i], steps[i], ss[i + 1]))
  }

  lemma BlankAgrees()
    ensures Agreement(BLANK)
  {
  }

  /** In every reachable state, for any policy answers and any failing writes, the
      stored actions and the audit trail agree. */
  lemma {:induction false} LedgerAgrees(cfg: Config, ss: seq<State>, steps: seq<Step>, i: nat)
    requires Run(cfg, ss, steps) && i < |ss|
    ensures Agreement(ss[i])
  {
    hide Takes, Agreement;
    if i == 0 {
      BlankAgrees();
    } else {
      LedgerAgrees(cfg, ss, steps, i - 1);
      assert Takes(cfg, ss[i - 1], steps[i - 1], ss[i - 1 + 1]);
      match steps[i - 1]
      case Evaluation(req, t, known) => EvaluationKeeps(cfg, ss[i - 1], req, t, known, ss[i]);
      case OtherEntry(v) => OtherEntryKeeps(cfg, ss[i - 1], v, ss[i]);
    }
  }

  /** Every stored action stays as it is, and the log is only added to. */
  predicate Extends(s: State, s': State) {
    s.log <= s'.log && forall id :: id in s.decided ==> id in s'.decided && s'.decided[id] == s.decided[id]
  }

  lemma StepExtends(cfg: Config, s: State, step: Step, s': State)
    requires Takes(cfg, s, step, s')
    ensures Extends(s, s')
  {
    hide Prepared, ActionID, Evaluated, Sound, Tells, Preparable;
    if step.Evaluation? {
      EvaluatedShaped(cfg, step.req, step.t, step.known);
    }
  }

  /** Nothing recorded is ever rewritten: a stored action keeps its decision, and
      the log only grows. */
  lemma {:induction false} NothingIsRewritten(cfg: Config, ss: seq<State>, steps: seq<Step>, i: nat, j: nat)
    requires Run(cfg, ss, steps) && i <= j < |ss|
    ensures Extends(ss[i], ss[j])
    decreases j - i
  {
    hide Takes;
    if i < j {
      NothingIsRewritten(cfg, ss, steps, i, j - 1);
      assert Takes(cfg, ss[j - 1], steps[j - 1], ss[j - 1 + 1]);
      StepExtends(cfg, ss[j - 1], steps[j - 1], ss[j]);
    }
  }

  /** Every evaluation that reaches the store leaves a trace, also when it was
      refused before the policy was asked or its incident does not exist; and one
      that does not reach it leaves neither action nor entry. */
  lemma EveryPathLeavesATrace(cfg: Config, s: State, req: Request, t: Trial, known: set<string>, s': State)
    requires Takes(cfg, s, Evaluation(req, t, known), s')
    ensures if t.saveFails then s' == s else About(s'.log, ActionID(t)) != {}
    ensures ActionID(t) in s'.decided ==> About(s'.log, ActionID(t)) != {}
  {
    hide Evaluated, ActionID, Shaped, About, Appends, Prepared, Logged;
    if !t.saveFails {
      var r := Evaluated(cfg, req, t, known);
      EvaluationAppends(cfg, s, req, t, known, s');
      LeavesATrace(s.log, r, ActionID(t), s'.log);
    }
  }

  lemma LeavesATrace(log: seq<EntryVal>, r: Record, id: string, log': seq<EntryVal>)
    requires Shaped(r.action, r.entries, id) && Appends(log, r.entries, log')
    requires forall e :: e in log ==> !IsAbout(e, id)
    ensures About(log', id) != {}
  {
    hide Tells, Sound;
    NewlyAbout(log, r.entries, log', id);
    assert |log| in About(log', id);
  }

  lemma JudgedSimulatedIff(cfg: Config, req: Request, t: Trial, spec: ActionSpec)
    ensures Judged(cfg, req, t, spec).status == SIMULATED <==>
      (req.mode == "" || req.mode == SIMULATE) && Permits(t.verdict)
  {
    hide Evaluate, JoinReasons, SimulatedEffect, NoActuatorReason, UnrecognisedReason, WellFormed, ActionID, ActorOf;
    KernelIsSafe(cfg.kernel, t.verdict);
  }

  /** The policy, and nothing else, can permit: an action ends up simulated exactly
      when it is in the catalog, asks for simulation, names a known incident, and
      the policy's document is a well-formed allow. */
  lemma SimulatedIff(cfg: Config, req: Request, t: Trial, known: set<string>)
    ensures var r := Evaluated(cfg, req, t, known);
      r.action.Some? && r.action.value.status == SIMULATED <==>
        && req.actionType in cfg.catalog && (req.mode == "" || req.mode == SIMULATE)
        && !t.loadFails && req.incidentID in known && Permits(t.verdict)
  {
    hide Judged, Evaluate, UnknownActionReason, InvalidModeReason, BaseEntry, Permits, DecisionDetails, ActionID, ActorOf,
      AuditActionFor, AuditOutcomeFor, JoinReasons, EvaluationResult;
    if req.actionType in cfg.catalog && ModeValid(Draft(req, t).mode) && !t.loadFails && req.incidentID in known {
      JudgedSimulatedIff(cfg, req, t, cfg.catalog[req.actionType]);
      assert Evaluated(cfg, req, t, known).action == Some(Judged(cfg, req, t, cfg.catalog[req.actionType]));
    }
  }

  // -------------------------------------------------------------------------
  // The service really makes such runs
  // -------------------------------------------------------------------------

  datatype Command =
    | Propose(req: Request, t: Trial)
    // An audit entry from anywhere else in the platform.
    | Note(v: EntryVal, suffix: string, now: int, appendFails: bool)

  function ProposedIDs(commands: seq<Command>): set<string> {
    set c | c in commands && c.Propose? :: ActionID(c.t)
  }

  /** Action identifiers are never generated twice, and the rest of the platform
      writes about events, incidents and the system only. */
  predicate Admissible(commands: seq<Command>) {
    forall i :: 0 <= i < |commands| ==>
      match commands[i]
      case Propose(_, t) => ActionID(t) !in ProposedIDs(commands[..i])
      case Note(v, _, _, _) => v.subjectType != SUBJECT_ACTION
  }

  /** Only proposed actions are stored or spoken about. */
  ghost predicate Mentions(s: State, ids: set<string>) {
    s.decided.Keys <= ids && forall e :: e in s.log && e.subjectType == SUBJECT_ACTION ==> e.subjectID in ids
  }

  lemma StepMentions(cfg: Config, s: State, step: Step, s': State, ids: set<string>)
    requires Mentions(s, ids) && Takes(cfg, s, step, s')
    ensures Mentions(s', ids + if step.Evaluation? then {ActionID(step.t)} else {})
  {
    hide Evaluated, ActionID, Prepared, Shaped, Logged;
    if step.Evaluation? && !step.t.saveFails {
      var r, id := Evaluated(cfg, step.req, step.t, step.known), ActionID(step.t);
      EvaluationAppends(cfg, s, step.req, step.t, step.known, s');
      ShapedID(r, id);
      NewlyAbout(s.log, r.entries, s'.log, id);
    }
  }

  lemma ShapedID(r: Record, id: string)
    requires Shaped(r.action, r.entries, id)
    ensures r.action.Some? ==> r.action.value.id == id
    ensures forall e :: e in r.entries ==> IsAbout(e, id)
  {
  }

  lemma OneMoreCommand(commands: seq<Command>, i: nat)
    requires i < |commands|
    ensures ProposedIDs(commands[..i]) <= ProposedIDs(commands[..i + 1])
    ensures commands[i].Propose? ==> ActionID(commands[i].t) in ProposedIDs(commands[..i + 1])
  {
    var a, b := commands[..i], commands[..i + 1];
    assert forall c :: c in a ==> c in b;
    assert commands[i] in b;
  }

  lemma RunExtends(cfg: Config, ss: seq<State>, steps: seq<Step>, step: Step, s: State)
    requires Run(cfg, ss, steps) && Takes(cfg, ss[|steps|], step, s)
    ensures Run(cfg, ss + [s], steps + [step])
  {
    hide Takes;
    forall i | 0 <= i < |steps + [step]| ensures Takes(cfg, (ss + [s])[i], (steps + [step])[i], (ss + [s])[i + 1]) {
      if i < |steps| {
        assert Takes(cfg, ss[i], steps[i], ss[i + 1]);
      }
    }
  }

  /** Writes an entry on its own, as every other part of the platform does. */
  method RecordAudit(store: MemoryStore, v: EntryVal, suffix: string, now: int, appendFails: bool) returns (noted: bool)
    requires store.Valid()
    modifies store`auditLog, store`auditSeq, store`log, store`auditRepr
    ensures store.Valid()
    ensures noted <==> Preparable(v) && !appendFails
    ensures store.log == if noted then old(store.log) + [Stamped(Stamp(v, suffix, now), |old(store.log)| + 1)] else old(store.log)
  {
    hide MemoryStore.Valid;
    var p := Prepare(v, suffix, now);
    assert unchanged(store) && unchanged(store.Repr());
    if p.None? || appendFails {
      return false;
    }
    var entry := new Entry(p.value);
    assert unchanged(store) && unchanged(store.Repr());
    noted := store.Append(entry);
  }

  ghost function Now(store: MemoryStore): State
    reads store
  {
    State(store.decided, store.log)
  }

  /** The step a command leads to, if any. */
  predicate Answers(c: Command, step: Step) {
    if c.Propose? then step.Evaluation? && step.t == c.t else step.OtherEntry?
  }

  method HandleProposal(e: Evaluator, req: Request, t: Trial) returns (ghost step: Step)
    requires e.store.Valid() && NewAction(Now(e.store), t)
    modifies e.store`actions, e.store`actionOrder, e.store`decided, e.store`actionRepr
    modifies e.store`auditLog, e.store`auditSeq, e.store`log, e.store`auditRepr
    ensures e.store.Valid()
    ensures Takes(e.cfg, old(Now(e.store)), step, Now(e.store)) && step.Evaluation? && step.t == t
  {
    hide MemoryStore.Valid, Evaluated, Persisted, NewAction;
    ghost var known := e.store.held.Keys;
    var action, error := e.EvaluateAction(req, t);
    step := Evaluation(req, t, known);
  }

  method Handle(e: Evaluator, c: Command) returns (moved: bool, ghost step: Step)
    requires e.store.Valid()
    requires match c case Propose(_, t) => NewAction(Now(e.store), t) case Note(v, _, _, _) => v.subjectType != SUBJECT_ACTION
    modifies e.store`actions, e.store`actionOrder, e.store`decided, e.store`actionRepr
    modifies e.store`auditLog, e.store`auditSeq, e.store`log, e.store`auditRepr
    ensures e.store.Valid()
    ensures if moved then Takes(e.cfg, old(Now(e.store)), step, Now(e.store)) else Now(e.store) == old(Now(e.store))
    ensures moved ==> Answers(c, step)
  {
    hide MemoryStore.Valid, Preparable, NewAction, Persisted, Evaluated;
    match c
    case Propose(req, t) =>
      step := HandleProposal(e, req, t);
      moved := true;
    case Note(v, suffix, now, appendFails) =>
      moved := RecordAudit(e.store, v, suffix, now, appendFails);
      step := OtherEntry(Stamp(v, suffix, now));
  }

  /** Handling commands one after another on an empty store is a run. */
  method Serve(e: Evaluator, commands: seq<Command>) returns (ghost ss: seq<State>, ghost steps: seq<Step>)
    requires e.store.Valid() && Now(e.store) == BLANK && Admissible(commands)
    modifies e.store`actions, e.store`actionOrder, e.store`decided, e.store`actionRepr
    modifies e.store`auditLog, e.store`auditSeq, e.store`log, e.store`auditRepr
    ensures e.store.Valid()
    ensures Run(e.cfg, ss, steps) && ss[|steps|] == Now(e.store)
  {
    hide MemoryStore.Valid, Takes, ProposedIDs, ActionID;
    ss, steps := [Now(e.store)], [];
    for i := 0 to |commands|
      invariant e.store.Valid()
      invariant Run(e.cfg, ss, steps) && ss[|steps|] == Now(e.store)
      invariant Mentions(Now(e.store), ProposedIDs(commands[..i]))
    {
      ghost var before := Now(e.store);
      var moved, step := Handle(e, commands[i]);
      OneMoreCommand(commands, i);
      if moved {
        StepMentions(e.cfg, before, step, Now(e.store), ProposedIDs(commands[..i]));
        RunExtends(e.cfg, ss, steps, step, Now(e.store));
        ss, steps := ss + [Now(e.store)], steps + [step];
      }
    }
  }
}

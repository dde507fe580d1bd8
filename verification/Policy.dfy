/** The Policy Kernel's last line of defence: what it accepts as a verdict, and
    what it returns for everything else. The policy itself is arbitrary. */
module Policy {
  import opened Events
  import opened Audit

  const ALLOW := "allow"
  const DENY := "deny"
  const REQUIRE_APPROVAL := "require_approval"

  const EMBEDDED := "embedded"
  const REMOTE := "remote"
  const UNAVAILABLE := "unavailable"

  const PACKAGE := "griefer.response"
  const VERSION := "0.1.0"

  /** A decision document as the policy returned it. */
  datatype RawDecision = RawDecision(effect: string, allow: bool, reasons: seq<string>,
                                     policyPackage: string, policyVersion: string)

  function ToDecision(raw: RawDecision, engine: string): Option<Decision> {
    if raw.effect != ALLOW && raw.effect != DENY && raw.effect != REQUIRE_APPROVAL then None
    else if raw.effect == ALLOW && !raw.allow then None
    else if raw.effect != ALLOW && raw.allow then None
    else if |raw.reasons| == 0 then None
    else Some(Decision(raw.effect, raw.allow, raw.reasons,
                       if raw.policyPackage == "" then PACKAGE else raw.policyPackage,
                       if raw.policyVersion == "" then "unknown" else raw.policyVersion,
                       false, engine))
  }

  function FailClosed(engine: string, reason: string): Decision {
    Decision(DENY, false, [reason], PACKAGE, VERSION, true, engine)
  }

  datatype Kernel = Embedded | Remote

  /** What asking the policy can come to: a document, or no answer at all. */
  datatype Verdict = Document(raw: RawDecision) | NoAnswer(timedOut: bool, why: string)

  datatype KernelError = NoError | TimedOut | Failed

  function EngineOf(k: Kernel): string {
    if k.Embedded? then EMBEDDED else REMOTE
  }

  function NotEvaluatedReason(): string {
    "Policy Kernel could not evaluate this request; GRIEFER fails closed and denies the action. "
  }

  function UnusableReason(): string {
    "Policy Kernel is unreachable or returned an unusable decision; GRIEFER fails closed and denies the action. "
  }

  function Explained(k: Kernel, why: string): string {
    (if k.Embedded? then NotEvaluatedReason() else UnusableReason()) + why
  }

  function Refusal(k: Kernel, why: string): (d: Decision)
    ensures d.effect == DENY && !d.allow && d.failClosed && |d.reasons| == 1
  {
    hide Explained;
    FailClosed(if k.Embedded? then EMBEDDED else UNAVAILABLE, Explained(k, why))
  }

  function Evaluate(k: Kernel, v: Verdict): (r: (Decision, KernelError)) {
    match v
    case NoAnswer(timedOut, why) => (Refusal(k, why), if timedOut then TimedOut else Failed)
    case Document(raw) =>
      var d := ToDecision(raw, EngineOf(k));
      if d.Some? then (d.value, NoError) else (Refusal(k, "policy returned a malformed decision"), Failed)
  }

  // -------------------------------------------------------------------------
  // What a decision can be relied on for
  // -------------------------------------------------------------------------

  /** A verdict that says one thing, says it consistently, and says why. */
  predicate WellFormed(raw: RawDecision) {
    raw.effect in {ALLOW, DENY, REQUIRE_APPROVAL} && (raw.allow <==> raw.effect == ALLOW) && raw.reasons != []
  }

  /** The one kind of verdict that permits anything. */
  predicate Permits(v: Verdict) {
    v.Document? && WellFormed(v.raw) && v.raw.effect == ALLOW
  }

  /** Exactly the well-formed documents are decisions, and they pass through as
      they are; nothing else does. */
  lemma DecisionIffWellFormed(raw: RawDecision, engine: string)
    ensures ToDecision(raw, engine).Some? <==> WellFormed(raw)
    ensures WellFormed(raw) ==>
      var d := ToDecision(raw, engine).value;
      d.effect == raw.effect && d.allow == raw.allow && d.reasons == raw.reasons && !d.failClosed && d.engine == engine
  {
  }

  /** Safe to act on whatever happened: allowed only by a well-formed allow, and a
      fail-closed deny with a reason whenever anything went wrong. */
  lemma KernelIsSafe(k: Kernel, v: Verdict)
    ensures var (d, err) := Evaluate(k, v);
      && (d.allow <==> d.effect == ALLOW)
      && (d.allow <==> Permits(v))
      && (err == NoError <==> v.Document? && WellFormed(v.raw))
      && (d.failClosed <==> err != NoError)
      && (err != NoError ==> d.effect == DENY)
      && d.reasons != []
  {
    hide Refusal;
    if v.Document? {
      DecisionIffWellFormed(v.raw, EngineOf(k));
    }
  }
}

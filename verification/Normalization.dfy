/** The ingest boundary: which events are let in, the canonical form they are given,
    and the label guard that keeps instructions out of telemetry. */
module Normalization {
  import opened Entity
  import opened Events
  import opened GraphView
  import opened Order
  import opened Projector

  // Nanoseconds: five minutes, and thirty days.
  const MAX_CLOCK_SKEW_AHEAD := 300_000_000_000
  const MAX_EVENT_AGE := 2_592_000_000_000_000

  datatype Rejection = NoTimestamp | TooFarAhead | TooOld

  datatype Result = Normalized(ev: SecurityEvent, quarantined: seq<string>) | Rejected(why: Rejection)

  /** What is acceptable as a source time to a receiver whose clock says `now`. */
  predicate InWindow(at: int, now: int) {
    at != ZERO_TIME && now - MAX_EVENT_AGE <= at <= now + MAX_CLOCK_SKEW_AHEAD
  }

  // -------------------------------------------------------------------------
  // The label guard
  // -------------------------------------------------------------------------

  const RESERVED_KEYS := {
    "action", "actions", "approval", "approve", "autonomy", "cmd", "command", "exec", "execute",
    "instruction", "instructions", "mode", "override", "policy", "policy_decision", "policy_override",
    "prompt", "response_action", "role", "system", "tool" }

  predicate Reserved(key: string) {
    var lower := ToLower(key);
    lower in RESERVED_KEYS || "griefer." <= lower || "griefer_" <= lower
  }

  /** The labels that stay. */
  function Guarded(labels: map<string, string>): map<string, string> {
    map k | k in labels && !Reserved(k) :: labels[k]
  }

  /** Deletes every reserved label, in whatever order the map is ranged over, and
      reports the deleted keys sorted. */
  method Sanitize(labels: map<string, string>) returns (kept: map<string, string>, quarantined: seq<string>)
    ensures kept == Guarded(labels)
    ensures Ascending(StrLess, quarantined)
    ensures forall k :: k in quarantined <==> k in labels && Reserved(k)
  {
    hide Reserved;
    kept := labels;
    var found: seq<string> := [];
    var rest := labels.Keys;
    while rest != {}
      invariant rest <= labels.Keys
      invariant forall k :: k in kept <==> k in labels && (k in rest || !Reserved(k))
      invariant forall k :: k in kept ==> kept[k] == labels[k]
      invariant Distinct(found)
      invariant forall k :: k in found <==> k in labels && k !in rest && Reserved(k)
    {
      var key :| key in rest;
      if Reserved(key) {
        kept := kept - {key};
        found := found + [key];
      }
      rest := rest - {key};
    }
    StrTotal();
    quarantined := SortSlice(found, StrLess);
    DistinctPermutation(found, quarantined);
    AscendingFromSorted(StrLess, quarantined);
  }

  // -------------------------------------------------------------------------
  // Canonical form
  // -------------------------------------------------------------------------

  function UpperChar(c: char): char {
    if 'a' <= c <= 'z' then c - 'a' + 'A' else c
  }

  function ToUpper(s: string): string {
    seq(|s|, i requires 0 <= i < |s| => UpperChar(s[i]))
  }

  function CanonicalActor(a: Actor): Actor {
    a.(id := Trim(a.id), name := Trim(a.name), domain := ToLower(Trim(a.domain)), sessionID := Trim(a.sessionID))
  }

  function CanonicalTarget(t: Target): Target {
    t.(id := Trim(t.id), name := Trim(t.name), criticality := if t.criticality == "" then MEDIUM else t.criticality)
  }

  function CanonicalDevice(d: Device): Device {
    d.(hostname := ToLower(Trim(d.hostname)), id := Trim(d.id))
  }

  function CanonicalNetwork(n: Network): Network {
    n.(sourceIP := Trim(n.sourceIP), country := ToUpper(Trim(n.country)))
  }

  function OnSome<T>(o: Option<T>, f: T -> T): Option<T> {
    if o.None? then None else Some(f(o.value))
  }

  /** The canonical form of an event; `newID` is what the generator would hand out. */
  function CanonicalEvent(ev: SecurityEvent, newID: string): SecurityEvent {
    ev.(id := if ev.id == "" then newID else ev.id,
        sourceName := Trim(ev.sourceName),
        actor := OnSome(ev.actor, CanonicalActor),
        target := OnSome(ev.target, CanonicalTarget),
        device := OnSome(ev.device, CanonicalDevice),
        network := OnSome(ev.network, CanonicalNetwork),
        labels := Guarded(ev.labels))
  }

  method Normalize(raw: SecurityEvent, now: int, newID: string) returns (r: Result)
    ensures r.Normalized? <==> InWindow(raw.timestamp, now)
    ensures r.Normalized? ==> r.ev == CanonicalEvent(raw, newID)
    ensures r.Normalized? ==> Ascending(StrLess, r.quarantined)
    ensures r.Normalized? ==> forall k :: k in r.quarantined <==> k in raw.labels && Reserved(k)
    ensures r == Rejected(NoTimestamp) <==> raw.timestamp == ZERO_TIME
    ensures r == Rejected(TooFarAhead) <==> raw.timestamp != ZERO_TIME && raw.timestamp > now + MAX_CLOCK_SKEW_AHEAD
  {
    hide Reserved, Guarded, Trim, ToLower, ToUpper;
    if raw.timestamp == ZERO_TIME {
      return Rejected(NoTimestamp);
    }
    if raw.timestamp > now + MAX_CLOCK_SKEW_AHEAD {
      return Rejected(TooFarAhead);
    }
    if raw.timestamp < now - MAX_EVENT_AGE {
      return Rejected(TooOld);
    }
    var ev := raw;
    if ev.id == "" {
      ev := ev.(id := newID);
    }
    ev := ev.(sourceName := Trim(ev.sourceName));
    if ev.actor.Some? {
      ev := ev.(actor := Some(CanonicalActor(ev.actor.value)));
    }
    if ev.target.Some? {
      ev := ev.(target := Some(CanonicalTarget(ev.target.value)));
    }
    if ev.device.Some? {
      ev := ev.(device := Some(CanonicalDevice(ev.device.value)));
    }
    if ev.network.Some? {
      ev := ev.(network := Some(CanonicalNetwork(ev.network.value)));
    }
    var kept, quarantined := Sanitize(ev.labels);
    r := Normalized(ev.(labels := kept), quarantined);
  }

  // -------------------------------------------------------------------------
  // What the canonical form is worth
  // -------------------------------------------------------------------------

  predicate Trimmed(s: string) {
    s != "" ==> !IsSpace(s[0]) && !IsSpace(s[|s| - 1])
  }

  lemma {:induction false} LeftTrimmed(s: string)
    ensures TrimLeft(s) != "" ==> !IsSpace(TrimLeft(s)[0])
  {
    if s != "" && IsSpace(s[0]) {
      LeftTrimmed(s[1..]);
    }
  }

  lemma {:induction false} RightTrimmed(s: string)
    ensures TrimRight(s) <= s
    ensures TrimRight(s) != "" ==> !IsSpace(TrimRight(s)[|TrimRight(s)| - 1])
  {
    if s != "" && IsSpace(s[|s| - 1]) {
      RightTrimmed(s[..|s| - 1]);
    }
  }

  lemma TrimTrims(s: string)
    ensures Trimmed(Trim(s))
  {
    LeftTrimmed(s);
    RightTrimmed(TrimLeft(s));
  }

  lemma TrimmedStays(s: string)
    requires Trimmed(s)
    ensures Trim(s) == s
  {
  }

  lemma LowerTwice(s: string)
    ensures ToLower(ToLower(s)) == ToLower(s)
    ensures Trimmed(s) ==> Trimmed(ToLower(s))
  {
  }

  lemma UpperTwice(s: string)
    ensures ToUpper(ToUpper(s)) == ToUpper(s)
    ensures Trimmed(s) ==> Trimmed(ToUpper(s))
  {
  }

  /** Each field rule leaves its own result alone. */
  lemma FieldRulesSettle(s: string)
    ensures Trim(Trim(s)) == Trim(s)
    ensures ToLower(Trim(ToLower(Trim(s)))) == ToLower(Trim(s))
    ensures ToUpper(Trim(ToUpper(Trim(s)))) == ToUpper(Trim(s))
  {
    hide Trim, ToLower, ToUpper, Trimmed;
    TrimTrims(s);
    TrimmedStays(Trim(s));
    LowerTwice(Trim(s));
    TrimmedStays(ToLower(Trim(s)));
    UpperTwice(Trim(s));
    TrimmedStays(ToUpper(Trim(s)));
  }

  /** Normalizing what is already normalized changes nothing, whatever identifier
      the generator would offer. */
  lemma NormalizingTwice(ev: SecurityEvent, newID: string, other: string)
    requires ev.id != "" || newID != ""
    ensures CanonicalEvent(CanonicalEvent(ev, newID), other) == CanonicalEvent(ev, newID)
  {
    hide Trim, ToLower, ToUpper, Reserved;
    FieldRulesSettle(ev.sourceName);
    if ev.actor.Some? {
      var a := ev.actor.value;
      FieldRulesSettle(a.id);
      FieldRulesSettle(a.name);
      FieldRulesSettle(a.domain);
      FieldRulesSettle(a.sessionID);
    }
    if ev.target.Some? {
      FieldRulesSettle(ev.target.value.id);
      FieldRulesSettle(ev.target.value.name);
    }
    if ev.device.Some? {
      FieldRulesSettle(ev.device.value.hostname);
      FieldRulesSettle(ev.device.value.id);
    }
    if ev.network.Some? {
      FieldRulesSettle(ev.network.value.sourceIP);
      FieldRulesSettle(ev.network.value.country);
    }
    assert Guarded(Guarded(ev.labels)) == Guarded(ev.labels);
  }

  /** Changing the case of a reserved key does not get it past the guard, and what
      the guard lets through it does not alter. */
  lemma GuardIsCaseBlind(labels: map<string, string>, key: string, disguise: string)
    requires ToLower(key) == ToLower(disguise) && Reserved(key)
    ensures disguise !in Guarded(labels)
    ensures forall k :: k in Guarded(labels) ==> k in labels && Guarded(labels)[k] == labels[k] && !Reserved(k)
    ensures forall k :: k in labels && !Reserved(k) ==> k in Guarded(labels)
  {
  }

  /** The guard never turns denied activity into access: the relation the graph
      records for an event is the one its labels said before they were guarded. */
  lemma GuardKeepsRelation(ev: SecurityEvent, newID: string)
    ensures RelationForEvent(CanonicalEvent(ev, newID)) == RelationForEvent(ev)
  {
    assert ToLower("outcome") == "outcome";
    assert !Reserved("outcome") by {
      assert "outcome"[0] == 'o' && "griefer."[0] == 'g' && "griefer_"[0] == 'g';
    }
    hide Reserved;
  }
}

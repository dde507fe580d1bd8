/** Folding an event into the graph: which nodes and edges it attests to. */
module Projector {
  import opened Entity
  import opened Events
  import opened GraphView
  import opened Graph
  import opened Order

  const AUTHENTICATED_FROM := "authenticated_from"
  const OPENED_SESSION := "opened_session"
  const USED_DEVICE := "used_device"
  const GRANTED_ROLE_ON := "granted_role_on"
  const ACCESSED := "accessed"
  const ATTEMPTED_ACCESS := "attempted_access"

  const PRIVILEGE_ESCALATION := "privilege_escalation"

  predicate OutcomeDenied(ev: SecurityEvent) {
    && "outcome" in ev.labels
    && (var o := ev.labels["outcome"]; o == "denied" || o == "failure" || o == "blocked")
  }

  /** Denied activity evidences an attempt, never access. */
  function RelationForEvent(ev: SecurityEvent): (relation: string)
    ensures relation == ACCESSED ==> !OutcomeDenied(ev)
    ensures relation == GRANTED_ROLE_ON <==> ev.category == PRIVILEGE_ESCALATION
  {
    if ev.category == PRIVILEGE_ESCALATION then GRANTED_ROLE_ON
    else if OutcomeDenied(ev) then ATTEMPTED_ACCESS
    else ACCESSED
  }

  function BoolString(b: bool): string {
    if b then "true" else "false"
  }

  function Attribute(key: string, value: string): map<string, string> {
    if value != "" then map[key := value] else map[]
  }

  function Flag(key: string, value: Option<bool>): map<string, string> {
    if value.Some? then map[key := BoolString(value.value)] else map[]
  }

  function ActorType(a: Actor): string {
    if a.typ == "account" then TYPE_ACCOUNT
    else if a.typ == "service" then TYPE_SERVICE
    else if a.typ == "application" then TYPE_APPLICATION
    else TYPE_IDENTITY
  }

  function TargetType(t: Target): string {
    if ValidType(t.typ) then t.typ else TYPE_SERVICE
  }

  function DeviceKey(d: Device): string {
    if d.id == "" then d.hostname else d.id
  }

  function ActorID(ev: SecurityEvent): string {
    if ev.actor.Some? && ev.actor.value.id != "" then EntityID(ActorType(ev.actor.value), ev.actor.value.id) else ""
  }

  function Seen(typ: string, key: string, name: string, criticality: string,
                attributes: map<string, string>, at: int): EntityVal {
    EntityVal(EntityID(typ, key), typ, key, name, criticality, attributes, at, at, true)
  }

  // -------------------------------------------------------------------------
  // The upserts an event amounts to
  // -------------------------------------------------------------------------

  function ActorUpserts(ev: SecurityEvent): seq<Upsert> {
    if ActorID(ev) == "" then []
    else
      var a := ev.actor.value;
      [PutEntity(Seen(ActorType(a), a.id, a.name, if a.privileged then HIGH else MEDIUM,
                      map["privileged" := BoolString(a.privileged)] + Attribute("domain", a.domain), ev.timestamp))]
  }

  /** A node and the actor's edge to it. */
  function Attested(ev: SecurityEvent, e: EntityVal, relation: string): seq<Upsert> {
    [PutEntity(e), PutEdge(EdgeName(ActorID(ev), e.id, relation), ev.timestamp, ev.id)]
  }

  function NetworkUpserts(ev: SecurityEvent): seq<Upsert> {
    if ev.network.None? || ev.network.value.sourceIP == "" then []
    else
      var n := ev.network.value;
      Attested(ev, Seen(TYPE_IP_ADDRESS, n.sourceIP, n.sourceIP, LOW,
                        Attribute("country", n.country) + Attribute("asn", n.asn), ev.timestamp), AUTHENTICATED_FROM)
  }

  function DeviceUpserts(ev: SecurityEvent): seq<Upsert> {
    if ev.device.None? || DeviceKey(ev.device.value) == "" then []
    else
      var d := ev.device.value;
      Attested(ev, Seen(TYPE_ENDPOINT, DeviceKey(d), d.hostname, MEDIUM,
                        Attribute("os", d.os) + Flag("managed", d.managed) + Flag("compliant", d.compliant), ev.timestamp), USED_DEVICE)
  }

  function SessionUpserts(ev: SecurityEvent): seq<Upsert> {
    if ev.actor.None? || ev.actor.value.sessionID == "" then []
    else
      var a := ev.actor.value;
      Attested(ev, Seen(TYPE_SESSION, a.sessionID, a.sessionID, MEDIUM,
                        map["privileged" := BoolString(a.privileged)], ev.timestamp), OPENED_SESSION)
  }

  function TargetUpserts(ev: SecurityEvent): seq<Upsert> {
    if ev.target.None? || ev.target.value.id == "" then []
    else
      var t := ev.target.value;
      Attested(ev, Seen(TargetType(t), t.id, t.name, t.criticality, map[], ev.timestamp), RelationForEvent(ev))
  }

  function CloudUpserts(ev: SecurityEvent): seq<Upsert> {
    if ev.cloud.None? || ev.cloud.value.resourceID == "" then []
    else
      var c := ev.cloud.value;
      Attested(ev, Seen(TYPE_CLOUD_RESOURCE, c.resourceID, c.resourceID, "",
                        Attribute("provider", c.provider) + Attribute("region", c.region)
                        + Attribute("resource_type", c.resourceType) + Attribute("account_id", c.accountID), ev.timestamp),
               RelationForEvent(ev))
  }

  function Projected(g: View, ev: SecurityEvent): View {
    var g1 := ApplyAll(g, ActorUpserts(ev));
    var g2 := ApplyAll(g1, NetworkUpserts(ev));
    var g3 := ApplyAll(g2, DeviceUpserts(ev));
    var g4 := ApplyAll(g3, SessionUpserts(ev));
    var g5 := ApplyAll(g4, TargetUpserts(ev));
    ApplyAll(g5, CloudUpserts(ev))
  }

  // -------------------------------------------------------------------------
  // The projector
  // -------------------------------------------------------------------------

  /** Upserts a node and, unless the event has no actor, the actor's edge to it. */
  method Attest(g: Graph, ev: SecurityEvent, actorID: string, e: EntityVal, relation: string)
    requires g.Valid() && actorID == ActorID(ev)
    modifies g.Repr()
    ensures g.Valid() && fresh(g.Repr() - old(g.Repr()))
    ensures g.Content() == ApplyAll(old(g.Content()), Attested(ev, e, relation))
  {
    hide Graph.Valid, Graph.Content, WithEntity, WithEdge, ApplyAll;
    var node := g.UpsertEntity(e);
    g.UpsertEdge(EdgeName(actorID, e.id, relation), ev.timestamp, ev.id);
    ApplyTwo(old(g.Content()), Attested(ev, e, relation));
  }

  lemma ApplyTwo(g: View, us: seq<Upsert>)
    requires |us| == 2
    ensures ApplyAll(g, us) == Apply(Apply(g, us[0]), us[1])
  {
    ApplyOne(g, us[0]);
    assert us[..1] == [us[0]];
  }

  lemma ApplyOne(g: View, u: Upsert)
    ensures ApplyAll(g, []) == g && ApplyAll(g, [u]) == Apply(g, u)
  {
    assert [u][..0] == [];
  }

  method ProjectActor(g: Graph, ev: SecurityEvent) returns (actorID: string)
    requires g.Valid()
    modifies g.Repr()
    ensures g.Valid() && fresh(g.Repr() - old(g.Repr()))
    ensures g.Content() == ApplyAll(old(g.Content()), ActorUpserts(ev))
    ensures actorID == ActorID(ev)
  {
    actorID := "";
    if ev.actor.Some? && ev.actor.value.id != "" {
      var a := ev.actor.value;
      actorID := EntityID(ActorType(a), a.id);
      var e := Seen(ActorType(a), a.id, a.name, if a.privileged then HIGH else MEDIUM,
                    map["privileged" := BoolString(a.privileged)] + Attribute("domain", a.domain), ev.timestamp);
      ApplyOne(g.Content(), PutEntity(e));
      var node := g.UpsertEntity(e);
    }
  }

  method ProjectNetwork(g: Graph, ev: SecurityEvent, actorID: string)
    requires g.Valid() && actorID == ActorID(ev)
    modifies g.Repr()
    ensures g.Valid() && fresh(g.Repr() - old(g.Repr()))
    ensures g.Content() == ApplyAll(old(g.Content()), NetworkUpserts(ev))
  {
    if ev.network.Some? && ev.network.value.sourceIP != "" {
      var n := ev.network.value;
      Attest(g, ev, actorID, Seen(TYPE_IP_ADDRESS, n.sourceIP, n.sourceIP, LOW,
                                  Attribute("country", n.country) + Attribute("asn", n.asn), ev.timestamp), AUTHENTICATED_FROM);
    }
  }

  method ProjectDevice(g: Graph, ev: SecurityEvent, actorID: string)
    requires g.Valid() && actorID == ActorID(ev)
    modifies g.Repr()
    ensures g.Valid() && fresh(g.Repr() - old(g.Repr()))
    ensures g.Content() == ApplyAll(old(g.Content()), DeviceUpserts(ev))
  {
    if ev.device.Some? && (ev.device.value.id != "" || ev.device.value.hostname != "") {
      var d := ev.device.value;
      Attest(g, ev, actorID, Seen(TYPE_ENDPOINT, DeviceKey(d), d.hostname, MEDIUM,
                                  Attribute("os", d.os) + Flag("managed", d.managed) + Flag("compliant", d.compliant),
                                  ev.timestamp), USED_DEVICE);
    }
  }

  method ProjectSession(g: Graph, ev: SecurityEvent, actorID: string)
    requires g.Valid() && actorID == ActorID(ev)
    modifies g.Repr()
    ensures g.Valid() && fresh(g.Repr() - old(g.Repr()))
    ensures g.Content() == ApplyAll(old(g.Content()), SessionUpserts(ev))
  {
    if ev.actor.Some? && ev.actor.value.sessionID != "" {
      var a := ev.actor.value;
      Attest(g, ev, actorID, Seen(TYPE_SESSION, a.sessionID, a.sessionID, MEDIUM,
                                  map["privileged" := BoolString(a.privileged)], ev.timestamp), OPENED_SESSION);
    }
  }

  method ProjectTarget(g: Graph, ev: SecurityEvent, actorID: string)
    requires g.Valid() && actorID == ActorID(ev)
    modifies g.Repr()
    ensures g.Valid() && fresh(g.Repr() - old(g.Repr()))
    ensures g.Content() == ApplyAll(old(g.Content()), TargetUpserts(ev))
  {
    if ev.target.Some? && ev.target.value.id != "" {
      var t := ev.target.value;
      Attest(g, ev, actorID, Seen(TargetType(t), t.id, t.name, t.criticality, map[], ev.timestamp), RelationForEvent(ev));
    }
  }

  method ProjectCloud(g: Graph, ev: SecurityEvent, actorID: string)
    requires g.Valid() && actorID == ActorID(ev)
    modifies g.Repr()
    ensures g.Valid() && fresh(g.Repr() - old(g.Repr()))
    ensures g.Content() == ApplyAll(old(g.Content()), CloudUpserts(ev))
  {
    if ev.cloud.Some? && ev.cloud.value.resourceID != "" {
      var c := ev.cloud.value;
      Attest(g, ev, actorID, Seen(TYPE_CLOUD_RESOURCE, c.resourceID, c.resourceID, "",
                                  Attribute("provider", c.provider) + Attribute("region", c.region)
                                  + Attribute("resource_type", c.resourceType) + Attribute("account_id", c.accountID),
                                  ev.timestamp), RelationForEvent(ev));
    }
  }

  /** Where the activity came from: address, device, session. */
  method ProjectContext(g: Graph, ev: SecurityEvent, actorID: string)
    requires g.Valid() && actorID == ActorID(ev)
    modifies g.Repr()
    ensures g.Valid() && fresh(g.Repr() - old(g.Repr()))
    ensures g.Content() ==
      ApplyAll(ApplyAll(ApplyAll(old(g.Content()), NetworkUpserts(ev)), DeviceUpserts(ev)), SessionUpserts(ev))
  {
    hide ApplyAll, Graph.Valid, Graph.Content;
    ProjectNetwork(g, ev, actorID);
    ProjectDevice(g, ev, actorID);
    ProjectSession(g, ev, actorID);
  }

  /** What it was directed at: target and cloud resource. */
  method ProjectObjects(g: Graph, ev: SecurityEvent, actorID: string)
    requires g.Valid() && actorID == ActorID(ev)
    modifies g.Repr()
    ensures g.Valid() && fresh(g.Repr() - old(g.Repr()))
    ensures g.Content() == ApplyAll(ApplyAll(old(g.Content()), TargetUpserts(ev)), CloudUpserts(ev))
  {
    hide ApplyAll, Graph.Valid, Graph.Content;
    ProjectTarget(g, ev, actorID);
    ProjectCloud(g, ev, actorID);
  }

  method Project(g: Graph, ev: SecurityEvent)
    requires g.Valid()
    modifies g.Repr()
    ensures g.Valid() && fresh(g.Repr() - old(g.Repr()))
    ensures g.Content() == Projected(old(g.Content()), ev)
  {
    hide ApplyAll, Graph.Valid, Graph.Content;
    var actorID := ProjectActor(g, ev);
    ProjectContext(g, ev, actorID);
    ProjectObjects(g, ev, actorID);
  }

  // -------------------------------------------------------------------------
  // What projection guarantees
  // -------------------------------------------------------------------------

  ghost predicate Progress(g: View, g': View) {
    Grows(g, g') && (Closed(g) ==> Closed(g')) && (WellFormed(g) ==> WellFormed(g'))
  }

  lemma ProgressTransitive(a: View, b: View, c: View)
    requires Progress(a, b) && Progress(b, c)
    ensures Progress(a, c)
  {
    GrowsTransitive(a, b, c);
  }

  /** Attesting a node for a known (or no) actor leaves no dangling edge. */
  lemma AttestedProgress(g: View, ev: SecurityEvent, e: EntityVal, relation: string)
    requires ActorID(ev) == "" || ActorID(ev) in g.entities
    requires e.id != ""
    ensures Progress(g, ApplyAll(g, Attested(ev, e, relation)))
    ensures e.id in ApplyAll(g, Attested(ev, e, relation)).entities
  {
    hide Grows, WellFormed, Merged, Touched;
    var us := Attested(ev, e, relation);
    ApplyTwo(g, us);
    RunGrows(g, us);
    var g1 := Apply(g, us[0]);
    ApplyKeepsWellFormed2(g, us[0], us[1]);
    assert g1.entities.Keys == g.entities.Keys + {e.id};
  }

  lemma ApplyKeepsWellFormed2(g: View, u: Upsert, v: Upsert)
    ensures WellFormed(g) ==> WellFormed(Apply(Apply(g, u), v))
  {
    if WellFormed(g) {
      ApplyKeepsWellFormed(g, u);
      ApplyKeepsWellFormed(Apply(g, u), v);
    }
  }

  lemma ActorProgress(g: View, ev: SecurityEvent)
    ensures Progress(g, ApplyAll(g, ActorUpserts(ev)))
    ensures ActorID(ev) == "" || ActorID(ev) in ApplyAll(g, ActorUpserts(ev)).entities
  {
    RunGrows(g, ActorUpserts(ev));
    if ActorID(ev) != "" {
      ApplyOne(g, ActorUpserts(ev)[0]);
      if WellFormed(g) {
        ApplyKeepsWellFormed(g, ActorUpserts(ev)[0]);
      }
    } else {
      ApplyOne(g, PutEdge(EdgeName("", "", ""), 0, ""));
    }
  }

  ghost predicate Holds(g: View, us: seq<Upsert>) {
    forall u :: u in us && u.PutEntity? ==> u.e.id in g.entities
  }

  ghost predicate IsPart(ev: SecurityEvent, us: seq<Upsert>) {
    us == [] || exists e: EntityVal, relation :: e.id != "" && us == Attested(ev, e, relation)
  }

  lemma PartProgress(g: View, ev: SecurityEvent, us: seq<Upsert>)
    requires ActorID(ev) == "" || ActorID(ev) in g.entities
    requires IsPart(ev, us)
    ensures Progress(g, ApplyAll(g, us)) && Holds(ApplyAll(g, us), us)
    ensures ActorID(ev) == "" || ActorID(ev) in ApplyAll(g, us).entities
  {
    if us != [] {
      var e: EntityVal, relation :| e.id != "" && us == Attested(ev, e, relation);
      AttestedProgress(g, ev, e, relation);
    } else {
      ApplyOne(g, PutEdge(EdgeName("", "", ""), 0, ""));
    }
  }

  lemma AllParts(ev: SecurityEvent)
    ensures IsPart(ev, NetworkUpserts(ev)) && IsPart(ev, DeviceUpserts(ev)) && IsPart(ev, SessionUpserts(ev))
    ensures IsPart(ev, TargetUpserts(ev)) && IsPart(ev, CloudUpserts(ev))
  {
    assert forall typ, key :: EntityID(typ, key) != "";
  }

  /** Projection only ever adds: it loses nothing, leaves no edge without both
      ends, and every entity the event refers to is in the graph afterwards. */
  lemma ProjectionProgress(g: View, ev: SecurityEvent)
    ensures Progress(g, Projected(g, ev))
    ensures forall id :: id in EntityIDsForEvent(ev) ==> id in Projected(g, ev).entities
  {
    hide ApplyAll, Progress, NetworkUpserts, DeviceUpserts, SessionUpserts, TargetUpserts, CloudUpserts, EntityIDsForEvent,
      ActorID, Holds, IsPart;
    AllParts(ev);
    ActorProgress(g, ev);
    var g1 := ApplyAll(g, ActorUpserts(ev));
    NothingHeld(g1);
    var g2 := NextPart(g, g1, ev, [], NetworkUpserts(ev));
    var g3 := NextPart(g, g2, ev, [] + NetworkUpserts(ev), DeviceUpserts(ev));
    var g4 := NextPart(g, g3, ev, [] + NetworkUpserts(ev) + DeviceUpserts(ev), SessionUpserts(ev));
    var g5 := NextPart(g, g4, ev, [] + NetworkUpserts(ev) + DeviceUpserts(ev) + SessionUpserts(ev), TargetUpserts(ev));
    var g6 := NextPart(g, g5, ev, [] + NetworkUpserts(ev) + DeviceUpserts(ev) + SessionUpserts(ev) + TargetUpserts(ev), CloudUpserts(ev));
    AllHeld(g6, NetworkUpserts(ev), DeviceUpserts(ev), SessionUpserts(ev), TargetUpserts(ev), CloudUpserts(ev));
    IdsAreUpserted(g6, ev);
  }

  lemma NothingHeld(g: View)
    ensures Holds(g, [])
  {
  }

  /** One part more, on top of those already projected. */
  lemma NextPart(start: View, g: View, ev: SecurityEvent, done: seq<Upsert>, us: seq<Upsert>) returns (g': View)
    requires Progress(start, g) && Holds(g, done) && IsPart(ev, us)
    requires ActorID(ev) == "" || ActorID(ev) in g.entities
    ensures g' == ApplyAll(g, us) && Progress(start, g') && Holds(g', done + us)
    ensures ActorID(ev) == "" || ActorID(ev) in g'.entities
  {
    hide ApplyAll, Progress, IsPart, ActorID;
    g' := ApplyAll(g, us);
    PartProgress(g, ev, us);
    ProgressTransitive(start, g, g');
    HoldsLater(g, g', done);
  }

  lemma AllHeld(g: View, a: seq<Upsert>, b: seq<Upsert>, c: seq<Upsert>, d: seq<Upsert>, e: seq<Upsert>)
    requires Holds(g, [] + a + b + c + d + e)
    ensures Holds(g, a) && Holds(g, b) && Holds(g, c) && Holds(g, d) && Holds(g, e)
  {
  }

  lemma HoldsLater(g: View, g': View, us: seq<Upsert>)
    requires Holds(g, us) && Progress(g, g')
    ensures Holds(g', us)
  {
  }

  // -------------------------------------------------------------------------
  // The identifiers an event refers to
  // -------------------------------------------------------------------------

  function Add(ids: seq<string>, id: string): seq<string> {
    if id == "" || id in ids then ids else ids + [id]
  }

  function AddAll(ids: seq<string>, more: seq<string>): (r: seq<string>)
    ensures Distinct(ids) ==> Distinct(r)
    ensures forall id :: id in r <==> id in ids || (id in more && id != "")
    decreases |more|
  {
    if more == [] then ids else AddAll(Add(ids, more[0]), more[1..])
  }

  function Mentioned(ev: SecurityEvent): seq<string> {
    (if ActorID(ev) != "" then
       [ActorID(ev)] + (if ev.actor.value.sessionID != "" then [EntityID(TYPE_SESSION, ev.actor.value.sessionID)] else [])
     else [])
    + (if ev.network.Some? && ev.network.value.sourceIP != "" then [EntityID(TYPE_IP_ADDRESS, ev.network.value.sourceIP)] else [])
    + (if ev.device.Some? && DeviceKey(ev.device.value) != "" then [EntityID(TYPE_ENDPOINT, DeviceKey(ev.device.value))] else [])
    + (if ev.target.Some? && ev.target.value.id != "" then [EntityID(TargetType(ev.target.value), ev.target.value.id)] else [])
    + (if ev.cloud.Some? && ev.cloud.value.resourceID != "" then [EntityID(TYPE_CLOUD_RESOURCE, ev.cloud.value.resourceID)] else [])
  }

  /** Each identifier once, in a fixed order. */
  function EntityIDsForEvent(ev: SecurityEvent): (ids: seq<string>)
    ensures Distinct(ids) && "" !in ids
    ensures forall id :: id in ids <==> id in Mentioned(ev) && id != ""
  {
    AddAll([], Mentioned(ev))
  }

  lemma IdsAreUpserted(g: View, ev: SecurityEvent)
    requires ActorID(ev) == "" || ActorID(ev) in g.entities
    requires Holds(g, NetworkUpserts(ev)) && Holds(g, DeviceUpserts(ev)) && Holds(g, SessionUpserts(ev))
    requires Holds(g, TargetUpserts(ev)) && Holds(g, CloudUpserts(ev))
    ensures forall id :: id in EntityIDsForEvent(ev) ==> id in g.entities
  {
    NetworkId(g, ev);
    DeviceId(g, ev);
    SessionId(g, ev);
    TargetId(g, ev);
    CloudId(g, ev);
    hide EntityID, Holds;
    hide NetworkUpserts, DeviceUpserts, SessionUpserts, TargetUpserts, CloudUpserts;
    forall id | id in Mentioned(ev) ensures id in g.entities {
    }
  }

  lemma NetworkId(g: View, ev: SecurityEvent)
    requires Holds(g, NetworkUpserts(ev))
    ensures ev.network.Some? && ev.network.value.sourceIP != "" ==> EntityID(TYPE_IP_ADDRESS, ev.network.value.sourceIP) in g.entities
  {
    FirstHeld(g, NetworkUpserts(ev));
  }

  lemma DeviceId(g: View, ev: SecurityEvent)
    requires Holds(g, DeviceUpserts(ev))
    ensures ev.device.Some? && DeviceKey(ev.device.value) != "" ==> EntityID(TYPE_ENDPOINT, DeviceKey(ev.device.value)) in g.entities
  {
    FirstHeld(g, DeviceUpserts(ev));
  }

  lemma SessionId(g: View, ev: SecurityEvent)
    requires Holds(g, SessionUpserts(ev))
    ensures ev.actor.Some? && ev.actor.value.sessionID != "" ==> EntityID(TYPE_SESSION, ev.actor.value.sessionID) in g.entities
  {
    FirstHeld(g, SessionUpserts(ev));
  }

  lemma TargetId(g: View, ev: SecurityEvent)
    requires Holds(g, TargetUpserts(ev))
    ensures ev.target.Some? && ev.target.value.id != "" ==> EntityID(TargetType(ev.target.value), ev.target.value.id) in g.entities
  {
    FirstHeld(g, TargetUpserts(ev));
  }

  lemma CloudId(g: View, ev: SecurityEvent)
    requires Holds(g, CloudUpserts(ev))
    ensures ev.cloud.Some? && ev.cloud.value.resourceID != "" ==> EntityID(TYPE_CLOUD_RESOURCE, ev.cloud.value.resourceID) in g.entities
  {
    FirstHeld(g, CloudUpserts(ev));
  }

  lemma FirstHeld(g: View, us: seq<Upsert>)
    requires Holds(g, us)
    ensures us != [] && us[0].PutEntity? ==> us[0].e.id in g.entities
  {
    assert us != [] ==> us[0] in us;
  }
}

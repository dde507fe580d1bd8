/** Normalized security events, as far as projection and correlation read them. */
module Events {
  import opened Entity

  datatype Option<T> = None | Some(value: T)

  datatype Actor = Actor(typ: string, id: string, name: string, domain: string, sessionID: string, privileged: bool)

  datatype Target = Target(typ: string, id: string, name: string, criticality: string)

  datatype Device = Device(id: string, hostname: string, os: string, managed: Option<bool>, compliant: Option<bool>)

  datatype Network = Network(sourceIP: string, asn: string, country: string)

  datatype Cloud = Cloud(provider: string, accountID: string, region: string, resourceID: string, resourceType: string)

  datatype SecurityEvent = SecurityEvent(
    id: string, timestamp: int, sourceType: string, sourceName: string, category: string,
    actor: Option<Actor>, target: Option<Target>, device: Option<Device>,
    network: Option<Network>, cloud: Option<Cloud>, labels: map<string, string>)

  /** The stable identity key of the actor, or "" when nobody is attributable. */
  function ActorKey(ev: SecurityEvent): string {
    if ev.actor.None? || ev.actor.value.id == "" then ""
    else ToLower(ev.actor.value.typ + ":" + ev.actor.value.id)
  }
}

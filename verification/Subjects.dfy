/** What an incident is about: when two events are put to the same subject, and when
    an unattributed event can end up in somebody's incident. */
module Subjects {
  import opened Entity
  import opened Events
  import opened Correlation

  /** A tag, a colon, and the rest: how every subject is written. */
  function Tagged(tag: string, rest: string): string {
    tag + ":" + rest
  }

  function SourceSubject(typ: string, name: string): string {
    "unattributed:" + typ + ":" + name
  }

  function ActorSubject(typ: string, id: string): string {
    ToLower(Tagged(typ, id))
  }

  predicate Attributed(ev: SecurityEvent) {
    ev.actor.Some? && ev.actor.value.id != ""
  }

  lemma SubjectIs(ev: SecurityEvent)
    ensures Attributed(ev) ==> SubjectKey(ev) == ActorSubject(ev.actor.value.typ, ev.actor.value.id)
    ensures !Attributed(ev) ==> SubjectKey(ev) == SourceSubject(ev.sourceType, ev.sourceName)
  {
  }

  lemma LowerTagged(tag: string, rest: string)
    ensures ToLower(Tagged(tag, rest)) == Tagged(ToLower(tag), ToLower(rest))
    ensures forall p, q :: ToLower(p + q) == ToLower(p) + ToLower(q)
  {
  }

  // -------------------------------------------------------------------------
  // When tags keep their subjects apart
  // -------------------------------------------------------------------------

  /** One tag is not a longer one cut at a colon. */
  predicate Unmixed(p: string, q: string) {
    !(p + ":" <= q) && !(q + ":" <= p)
  }

  /** Of two tags of one subject the shorter is the longer cut at a colon. */
  lemma TagsOfOne(p: string, x: string, q: string, y: string)
    requires Tagged(p, x) == Tagged(q, y)
    ensures |p| < |q| ==> p + ":" <= q
    ensures |q| < |p| ==> q + ":" <= p
    ensures |p| == |q| ==> p == q && x == y
  {
    var s := Tagged(p, x);
    assert p + ":" == s[..|p| + 1] && q + ":" == s[..|q| + 1] && p == s[..|p|] && q == s[..|q|];
    assert x == s[|p| + 1..] && y == s[|q| + 1..];
  }

  lemma UnmixedTagsSeparate(p: string, x: string, q: string, y: string)
    requires Unmixed(p, q) && Tagged(p, x) == Tagged(q, y)
    ensures p == q && x == y
  {
    TagsOfOne(p, x, q, y);
  }

  lemma MixedTagsMeet(p: string, q: string, y: string)
    requires p + ":" <= q
    ensures Tagged(p, q[|p| + 1..] + ":" + y) == Tagged(q, y) && p != q
  {
    assert q == p + ":" + q[|p| + 1..];
  }

  /** Two source types never share a subject exactly when neither is the other cut
      at a colon; then a subject belongs to one source. */
  lemma SourcesApartIff(t: string, t': string)
    ensures Unmixed(t, t') <==>
      forall n, n' :: SourceSubject(t, n) == SourceSubject(t', n') ==> t == t' && n == n'
  {
    if Unmixed(t, t') {
      forall n, n' | SourceSubject(t, n) == SourceSubject(t', n') ensures t == t' && n == n' {
        SourceTagged(t, n);
        SourceTagged(t', n');
        UnmixedTagsSeparate(t, n, t', n');
      }
    } else if t + ":" <= t' {
      SourcesMeet(t, t');
    } else {
      SourcesMeet(t', t);
    }
  }

  lemma SourceTagged(t: string, n: string)
    ensures |SourceSubject(t, n)| >= 13 && SourceSubject(t, n)[13..] == Tagged(t, n)
  {
  }

  lemma SourcesMeet(t: string, t': string)
    requires t + ":" <= t'
    ensures SourceSubject(t, t'[|t| + 1..] + ":" + "") == SourceSubject(t', "") && t != t'
  {
    MixedTagsMeet(t, t', "");
    assert SourceSubject(t', "") == "unattributed:" + Tagged(t', "");
    assert SourceSubject(t, t'[|t| + 1..] + ":" + "") == "unattributed:" + Tagged(t, t'[|t| + 1..] + ":" + "");
  }

  lemma ActorTagged(t: string, id: string)
    ensures ActorSubject(t, id) == Tagged(ToLower(t), ToLower(id))
  {
    LowerTagged(t, id);
  }

  /** The same for actors, whose types and identifiers are compared without case. */
  lemma ActorsApartIff(t: string, t': string)
    ensures Unmixed(ToLower(t), ToLower(t')) <==>
      forall id, id' :: id != "" && id' != "" && ActorSubject(t, id) == ActorSubject(t', id') ==>
        ToLower(t) == ToLower(t') && ToLower(id) == ToLower(id')
  {
    hide ToLower, ActorSubject;
    if Unmixed(ToLower(t), ToLower(t')) {
      forall id, id' | id != "" && id' != "" && ActorSubject(t, id) == ActorSubject(t', id')
        ensures ToLower(t) == ToLower(t') && ToLower(id) == ToLower(id')
      {
        ActorTagged(t, id);
        ActorTagged(t', id');
        UnmixedTagsSeparate(ToLower(t), ToLower(id), ToLower(t'), ToLower(id'));
      }
    } else if ToLower(t) + ":" <= ToLower(t') {
      ActorsMeet(t, t');
    } else {
      ActorsMeet(t', t);
    }
  }

  lemma ActorsMeet(t: string, t': string)
    requires ToLower(t) + ":" <= ToLower(t')
    ensures exists id, id' :: id != "" && id' != "" && ActorSubject(t, id) == ActorSubject(t', id') && ToLower(t) != ToLower(t')
  {
    var rest := ToLower(t')[|t| + 1..];
    var id := rest + ":x";
    LowerOfLower(t', |t| + 1);
    assert ToLower(":x") == ":x" && ToLower("x") == "x";
    LowerTagged(rest, "x");
    assert id == Tagged(rest, "x");
    ActorTagged(t, id);
    ActorTagged(t', "x");
    hide ToLower, ActorSubject;
    MixedTagsMeet(ToLower(t), ToLower(t'), "x");
    assert ActorSubject(t, id) == ActorSubject(t', "x");
  }

  lemma LowerOfLower(t: string, k: nat)
    requires k <= |t|
    ensures ToLower(ToLower(t)[k..]) == ToLower(t)[k..]
  {
  }

  // -------------------------------------------------------------------------
  // When an unattributed event is put to an actor
  // -------------------------------------------------------------------------

  /** A type up to its first colon. */
  function Head(t: string): string {
    if ColonIndex(t) < 0 then t else t[..ColonIndex(t)]
  }

  /** An actor type lets some actor share a subject with some unattributed source
      exactly when, without case and up to its first colon, it is the word every
      unattributed subject begins with. */
  lemma ActorMeetsSourceIff(t: string)
    ensures (exists id, typ, name :: id != "" && ActorSubject(t, id) == SourceSubject(typ, name))
      <==> ToLower(Head(t)) == "unattributed"
  {
    if id, typ, name :| id != "" && ActorSubject(t, id) == SourceSubject(typ, name) {
      HeadOfShared(t, id, typ, name);
    }
    if ToLower(Head(t)) == "unattributed" {
      SharedByHead(t);
    }
  }

  lemma HeadOfShared(t: string, id: string, typ: string, name: string)
    requires ActorSubject(t, id) == SourceSubject(typ, name)
    ensures ToLower(Head(t)) == "unattributed"
  {
    var s := ActorSubject(t, id);
    LowerTagged(t, id);
    assert forall i :: 0 <= i < |t| ==> s[i] == LowerChar(t[i]);
    assert s[|t|] == ':';
    assert s[..12] == "unattributed" && s[12] == ':';
    assert forall i :: 0 <= i < 12 ==> s[i] != ':';
    assert |t| >= 12;
    assert forall i :: 0 <= i < |t| ==> (s[i] == ':' <==> t[i] == ':');
    assert |Head(t)| == 12;
    assert ToLower(Head(t)) == s[..12];
  }

  lemma SharedByHead(t: string)
    requires ToLower(Head(t)) == "unattributed"
    ensures exists id, typ, name :: id != "" && ActorSubject(t, id) == SourceSubject(typ, name)
  {
    var id := "a:b";
    assert ToLower(id) == id;
    ActorTagged(t, id);
    hide ActorSubject;
    if ColonIndex(t) < 0 {
      assert Tagged(ToLower(t), id) == SourceSubject("a", "b");
    } else {
      var h, tail := Head(t), t[|Head(t)| + 1..];
      assert t == Tagged(h, tail);
      LowerTagged(h, tail);
      hide ToLower, Head;
      assert Tagged(ToLower(t), id) == SourceSubject(ToLower(tail), id);
    }
  }

  // -------------------------------------------------------------------------
  // Events
  // -------------------------------------------------------------------------

  /** What a subject is meant to be: the acting identity, or else the source. */
  predicate SameSubject(a: SecurityEvent, b: SecurityEvent) {
    if Attributed(a) && Attributed(b) then
      && ToLower(a.actor.value.typ) == ToLower(b.actor.value.typ)
      && ToLower(a.actor.value.id) == ToLower(b.actor.value.id)
    else !Attributed(a) && !Attributed(b) && a.sourceType == b.sourceType && a.sourceName == b.sourceName
  }

  /** Types that hold no colon, and no actor type that passes for a missing actor. */
  predicate PlainTypes(ev: SecurityEvent) {
    && ':' !in ev.sourceType
    && (ev.actor.Some? ==> ':' !in ev.actor.value.typ && ToLower(ev.actor.value.typ) != "unattributed")
  }

  lemma NotBeforeColon(p: string, q: string)
    requires ':' !in q
    ensures !(p + ":" <= q)
  {
    assert (p + ":")[|p|] == ':';
  }

  lemma LowerNoColon(p: string)
    requires ':' !in p
    ensures ':' !in ToLower(p)
  {
    assert forall i :: 0 <= i < |p| ==> ToLower(p)[i] != ':';
  }

  lemma PlainUnmixed(p: string, q: string)
    requires ':' !in p && ':' !in q
    ensures Unmixed(p, q) && Unmixed(ToLower(p), ToLower(q)) && Head(p) == p
  {
    LowerNoColon(p);
    LowerNoColon(q);
    hide ToLower;
    NotBeforeColon(p, q);
    NotBeforeColon(q, p);
    NotBeforeColon(ToLower(p), ToLower(q));
    NotBeforeColon(ToLower(q), ToLower(p));
  }

  /** For such events the subject says exactly whom an event is put to: one identity
      without regard to case, or one source; never both, and nobody else's. */
  lemma SubjectsAreIdentities(a: SecurityEvent, b: SecurityEvent)
    requires PlainTypes(a) && PlainTypes(b)
    ensures SubjectKey(a) == SubjectKey(b) <==> SameSubject(a, b)
  {
    SubjectIs(a);
    SubjectIs(b);
    hide SubjectKey, ActorSubject, SourceSubject, ToLower, Unmixed, Head;
    PlainUnmixed(a.sourceType, b.sourceType);
    SourcesApartIff(a.sourceType, b.sourceType);
    if Attributed(a) && Attributed(b) {
      BothActors(a.actor.value, b.actor.value);
    } else if Attributed(a) {
      ActorNoSource(a.actor.value, b.sourceType, b.sourceName);
    } else if Attributed(b) {
      ActorNoSource(b.actor.value, a.sourceType, a.sourceName);
    }
  }

  lemma BothActors(a: Actor, b: Actor)
    requires ':' !in a.typ && ':' !in b.typ && a.id != "" && b.id != ""
    ensures ActorSubject(a.typ, a.id) == ActorSubject(b.typ, b.id)
      <==> ToLower(a.typ) == ToLower(b.typ) && ToLower(a.id) == ToLower(b.id)
  {
    PlainUnmixed(a.typ, b.typ);
    LowerTagged(a.typ, a.id);
    LowerTagged(b.typ, b.id);
    hide ToLower, Unmixed;
    ActorsApartIff(a.typ, b.typ);
  }

  lemma ActorNoSource(a: Actor, typ: string, name: string)
    requires ':' !in a.typ && ToLower(a.typ) != "unattributed" && a.id != ""
    ensures ActorSubject(a.typ, a.id) != SourceSubject(typ, name)
  {
    PlainUnmixed(a.typ, a.typ);
    hide ActorSubject, SourceSubject;
    ActorMeetsSourceIff(a.typ);
  }

  const SOURCE_TYPES := { "identity_provider", "endpoint_agent", "cloud_audit", "application", "network",
                          "secret_manager", "source_control", "synthetic_fixture" }
  const ACTOR_TYPES := { "identity", "account", "service", "application", "unknown" }

  /** The types the event schema admits. */
  predicate SchemaTypes(ev: SecurityEvent) {
    ev.sourceType in SOURCE_TYPES && (ev.actor.Some? ==> ev.actor.value.typ in ACTOR_TYPES)
  }

  /** Of events the schema admits, no unattributed one is ever put to an identity, nor
      one source's to another's. */
  lemma SchemaSubjects(a: SecurityEvent, b: SecurityEvent)
    requires SchemaTypes(a) && SchemaTypes(b)
    ensures SubjectKey(a) == SubjectKey(b) <==> SameSubject(a, b)
  {
    SchemaPlain(a);
    SchemaPlain(b);
    hide SubjectKey, SameSubject, PlainTypes, SchemaTypes;
    SubjectsAreIdentities(a, b);
  }

  lemma SchemaPlain(ev: SecurityEvent)
    requires SchemaTypes(ev)
    ensures PlainTypes(ev)
  {
    SourceTypesPlain(ev.sourceType);
    if ev.actor.Some? {
      ActorTypesPlain(ev.actor.value.typ);
      assert |ToLower(ev.actor.value.typ)| == |ev.actor.value.typ|;
    }
  }

  lemma SourceTypesPlain(t: string)
    requires t in SOURCE_TYPES
    ensures forall i :: 0 <= i < |t| ==> t[i] != ':'
  {
  }

  lemma ActorTypesPlain(t: string)
    requires t in ACTOR_TYPES
    ensures |t| <= 11 && forall i :: 0 <= i < |t| ==> t[i] != ':'
  {
  }
}

/** Entity types, criticality levels and canonical identifiers. */
module Entity {

  const TYPE_IDENTITY := "identity"
  const TYPE_ACCOUNT := "account"
  const TYPE_SESSION := "session"
  const TYPE_ENDPOINT := "endpoint"
  const TYPE_IP_ADDRESS := "ip_address"
  const TYPE_APPLICATION := "application"
  const TYPE_SECRET := "secret"
  const TYPE_CLOUD_RESOURCE := "cloud_resource"
  const TYPE_REPOSITORY := "repository"
  const TYPE_SERVICE := "service"

  predicate ValidType(t: string) {
    || t == TYPE_IDENTITY || t == TYPE_ACCOUNT || t == TYPE_SESSION || t == TYPE_ENDPOINT
    || t == TYPE_IP_ADDRESS || t == TYPE_APPLICATION || t == TYPE_SECRET
    || t == TYPE_CLOUD_RESOURCE || t == TYPE_REPOSITORY || t == TYPE_SERVICE
  }

  // A criticality is free text; the four levels below are the ones with a meaning.
  const LOW := "low"
  const MEDIUM := "medium"
  const HIGH := "high"
  const CRITICAL := "critical"

  function Weight(c: string): real {
    if c == LOW then 1.0
    else if c == HIGH then 8.0
    else if c == CRITICAL then 20.0
    else 3.0
  }

  function Rank(c: string): int {
    if c == CRITICAL then 3
    else if c == HIGH then 2
    else if c == LOW then 0
    else 1
  }

  /** The two scales agree, and only "critical" sits at the top, so an upsert that
      never lowers a rank never lowers a weight nor loses a critical asset. */
  lemma RankGovernsWeight(a: string, b: string)
    requires Rank(a) <= Rank(b)
    ensures 1.0 <= Weight(a) <= Weight(b)
    ensures a == CRITICAL ==> b == CRITICAL
    ensures Rank(a) == Rank(b) <==> Weight(a) == Weight(b)
  {
  }

  // -------------------------------------------------------------------------
  // Identifiers
  // -------------------------------------------------------------------------

  predicate IsSpace(c: char) {
    c == ' ' || '\t' <= c <= '\r'
  }

  function TrimLeft(s: string): string {
    if s != "" && IsSpace(s[0]) then TrimLeft(s[1..]) else s
  }

  function TrimRight(s: string): string {
    if s != "" && IsSpace(s[|s| - 1]) then TrimRight(s[..|s| - 1]) else s
  }

  function Trim(s: string): string {
    TrimRight(TrimLeft(s))
  }

  function LowerChar(c: char): char {
    if 'A' <= c <= 'Z' then c - 'A' + 'a' else c
  }

  function ToLower(s: string): string {
    seq(|s|, i requires 0 <= i < |s| => LowerChar(s[i]))
  }

  function Canonical(key: string): string {
    ToLower(Trim(key))
  }

  function EntityID(t: string, key: string): string {
    t + ":" + Canonical(key)
  }

  /** Position of the first ':' or -1, as `strings.Index`. */
  function ColonIndex(s: string): (i: int)
    ensures -1 <= i < |s|
    ensures forall k :: 0 <= k < (if i < 0 then |s| else i) ==> s[k] != ':'
    ensures i >= 0 ==> s[i] == ':'
  {
    if s == "" then -1
    else if s[0] == ':' then 0
    else
      var rest := ColonIndex(s[1..]);
      assert forall k :: 1 <= k < |s| ==> s[k] == s[1..][k - 1];
      if rest < 0 then -1 else rest + 1
  }

  datatype SplitID = Typed(typ: string, key: string) | NotCanonical

  function SplitEntityID(id: string): SplitID {
    var i := ColonIndex(id);
    if i <= 0 || i == |id| - 1 then NotCanonical
    else if !ValidType(id[..i]) then NotCanonical
    else Typed(id[..i], id[i + 1..])
  }

  lemma TypeHasNoColon(t: string)
    requires ValidType(t)
    ensures t != "" && ':' !in t
  {
  }

  lemma ColonAfterPrefix(t: string, rest: string)
    requires ':' !in t
    ensures ColonIndex(t + ":" + rest) == |t|
    ensures (t + ":" + rest)[..|t|] == t
    ensures (t + ":" + rest)[|t| + 1..] == rest
  {
    var s := t + ":" + rest;
    assert s[|t|] == ':';
    assert forall k :: 0 <= k < |t| ==> s[k] == t[k];
  }

  /** Splitting undoes building exactly when something is left of the key after
      trimming: a blank key yields an identifier its own package calls malformed. */
  lemma SplitUndoesEntityID(t: string, key: string)
    requires ValidType(t)
    ensures SplitEntityID(EntityID(t, key)) == Typed(t, Canonical(key)) <==> Canonical(key) != ""
    ensures Canonical(key) == "" ==> SplitEntityID(EntityID(t, key)) == NotCanonical
  {
    var id := EntityID(t, key);
    TypeHasNoColon(t);
    ColonAfterPrefix(t, Canonical(key));
  }

  /** Two typed keys share a node exactly when type and canonical key agree. */
  lemma EntityIDInjective(t: string, key: string, t': string, key': string)
    requires ValidType(t) && ValidType(t')
    ensures EntityID(t, key) == EntityID(t', key') <==> t == t' && Canonical(key) == Canonical(key')
  {
    TypeHasNoColon(t);
    TypeHasNoColon(t');
    ColonAfterPrefix(t, Canonical(key));
    ColonAfterPrefix(t', Canonical(key'));
  }
}

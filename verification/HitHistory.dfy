/** What the engine's threshold counters amount to over whole runs: each holds what
    `Threshold` says is stored of every hit of its subject and rule. */
module HitHistory {
  import opened Events
  import opened Correlation
  import opened EngineRuns
  import T = Threshold

  // -------------------------------------------------------------------------
  // Counter keys
  // -------------------------------------------------------------------------

  predicate EndsWith(s: string, t: string) {
    |t| <= |s| && s[|s| - |t|..] == t
  }

  /** Neither rule id is the other behind a separator. */
  predicate Apart(a: Rule, b: Rule) {
    !EndsWith(a.id, "|" + b.id) && !EndsWith(b.id, "|" + a.id)
  }

  /** Counters of rules that are apart belong to one subject and one rule, whatever
      separators the subjects and the rule ids hold. */
  lemma HitKeyInjective(s: string, a: Rule, t: string, b: Rule)
    requires Apart(a, b)
    ensures HitKey(s, a) == HitKey(t, b) <==> s == t && a.id == b.id
  {
    if HitKey(s, a) == HitKey(t, b) {
      if |s| < |t| {
        EndsBehindBar(s, a, t, b);
      } else if |t| < |s| {
        EndsBehindBar(t, b, s, a);
      } else {
        var key := HitKey(s, a);
        assert key[..|s|] == s && key[..|t|] == t;
        assert key[|s| + 1..] == a.id && key[|t| + 1..] == b.id;
      }
    }
  }

  lemma EndsBehindBar(s: string, a: Rule, t: string, b: Rule)
    requires HitKey(s, a) == HitKey(t, b) && |s| < |t|
    ensures EndsWith(a.id, "|" + b.id)
  {
    var key := HitKey(s, a);
    assert a.id == key[|s| + 1..];
    assert key[|t|..] == "|" + b.id;
    assert a.id[|a.id| - |b.id| - 1..] == key[|t|..];
  }

  /** A rule id that is another one behind a separator: the other rule's counter for
      a longer subject is the same counter. */
  lemma KeyShared(s: string, a: Rule, b: Rule)
    requires EndsWith(a.id, "|" + b.id)
    ensures HitKey(s, a) == HitKey(s + "|" + a.id[..|a.id| - |b.id| - 1], b)
  {
    var p := a.id[..|a.id| - |b.id| - 1];
    assert a.id == p + ("|" + b.id);
  }

  /** An event nobody is attributed to, from a source of this name. */
  function FromSource(name: string): SecurityEvent {
    SecurityEvent("", 0, "", name, "", None, None, None, None, None, map[])
  }

  lemma SharedBySources(a: Rule, b: Rule)
    requires EndsWith(a.id, "|" + b.id)
    ensures exists ev, ev' :: HitKey(SubjectKey(ev), a) == HitKey(SubjectKey(ev'), b) && SubjectKey(ev) != SubjectKey(ev')
  {
    var p := a.id[..|a.id| - |b.id| - 1];
    var ev, ev' := FromSource(""), FromSource("|" + p);
    assert SubjectKey(ev') == SubjectKey(ev) + "|" + p;
    KeyShared(SubjectKey(ev), a, b);
  }

  /** The exact condition: over all events, the counters of two rules never meet if
      and only if neither rule id is the other behind a separator. */
  lemma CountersApartIff(a: Rule, b: Rule)
    ensures Apart(a, b) <==>
      forall ev, ev' :: HitKey(SubjectKey(ev), a) == HitKey(SubjectKey(ev'), b) ==> SubjectKey(ev) == SubjectKey(ev') && a.id == b.id
  {
    if Apart(a, b) {
      forall ev, ev' | HitKey(SubjectKey(ev), a) == HitKey(SubjectKey(ev'), b)
        ensures SubjectKey(ev) == SubjectKey(ev') && a.id == b.id
      {
        HitKeyInjective(SubjectKey(ev), a, SubjectKey(ev'), b);
      }
    } else if EndsWith(a.id, "|" + b.id) {
      SharedBySources(a, b);
    } else {
      SharedBySources(b, a);
    }
  }

  /** Rule ids are distinct, as loading requires, and those that count are pairwise
      apart. */
  predicate Keyed(rules: seq<Rule>) {
    && (forall i, j :: 0 <= i < |rules| && 0 <= j < |rules| && rules[i].threshold.Some? && rules[j].threshold.Some? ==>
          Apart(rules[i], rules[j]))
    && (forall i, j :: 0 <= i < j < |rules| ==> rules[i].id != rules[j].id)
  }

  // -------------------------------------------------------------------------
  // What goes wrong when two counters are one
  // -------------------------------------------------------------------------

  /** Evaluating two rules, one after the other. */
  lemma EvaluatePair(a: Rule, b: Rule, hits: Hits, ev: SecurityEvent)
    ensures Evaluate([a, b], hits, ev) == EvaluateRule(EvaluateRule(Evaluation([], hits), a, ev), b, ev)
  {
    assert [a, b][..1] == [a] && [a][..0] == [];
    assert Evaluate([a], hits, ev) == EvaluateRule(Evaluate([], hits, ev), a, ev);
  }

  lemma TwoStored(th: T.Threshold, s: int, t: int)
    requires th.count == 2 && th.window >= 0 && t - th.window <= s
    ensures T.Recorded([], s, th) == [s] && T.Recorded([s], t, th) == [s, t]
  {
    assert [] + [s] == [s] && [s] + [t] == [s, t] && [s, t][..1] == [s];
    assert T.Recent([s], s - th.window) == [s];
    assert T.Recent([s], t - th.window) == [s];
  }

  /** A hit of one subject and rule counts for another subject and another rule: the
      second rule fires on its very first hit, which alone it would not. */
  lemma SharedCounterFires(a: Rule, b: Rule, th: T.Threshold, ev: SecurityEvent, ev': SecurityEvent)
    requires a.threshold == b.threshold == Some(th) && th.count == 2 && th.window >= 0
    requires a.matches(ev) && !b.matches(ev) && b.matches(ev') && !a.matches(ev')
    requires HitKey(SubjectKey(ev), a) == HitKey(SubjectKey(ev'), b) && ev'.timestamp - th.window <= ev.timestamp
    ensures var first := Evaluate([a, b], map[], ev);
      first.findings == [] && Evaluate([a, b], first.hits, ev').findings == [Found(b, ev')]
    ensures Evaluate([a, b], map[], ev').findings == []
  {
    hide SubjectKey, HitKey, Found, T.Recorded;
    TwoStored(th, ev.timestamp, ev'.timestamp);
    TwoStored(th, ev'.timestamp, ev'.timestamp);
    EvaluatePair(a, b, map[], ev);
    EvaluatePair(a, b, Evaluate([a, b], map[], ev).hits, ev');
    EvaluatePair(a, b, map[], ev');
  }

  const LONG := Rule("r|s", "authentication", "low", 0.5,
                     (ev: SecurityEvent) => ev.category == "authentication", Some(T.Threshold(2, 60)))
  const SHORT := Rule("s", "data_access", "low", 0.5,
                      (ev: SecurityEvent) => ev.category == "data_access", Some(T.Threshold(2, 60)))

  function ByAccount(id: string, category: string): SecurityEvent {
    SecurityEvent("e", 100, "application", "app", category, Some(Actor("account", id, "", "", "", false)),
                  None, None, None, None, map[])
  }

  /** Two accounts, two rules with different ids, one hit each: the second fires. */
  lemma HitKeysCollide()
    ensures var ev, ev' := ByAccount("a", "authentication"), ByAccount("a|r", "data_access");
      && SubjectKey(ev) == "account:a" && SubjectKey(ev') == "account:a|r"
      && Evaluate([LONG, SHORT], map[], ev).findings == []
      && Evaluate([LONG, SHORT], map[], ev').findings == []
      && Evaluate([LONG, SHORT], Evaluate([LONG, SHORT], map[], ev).hits, ev').findings == [Found(SHORT, ev')]
  {
    var ev, ev' := ByAccount("a", "authentication"), ByAccount("a|r", "data_access");
    assert SubjectKey(ev) == "account:a" && SubjectKey(ev') == "account:a|r";
    assert HitKey(SubjectKey(ev), LONG) == "account:a|r|s" == HitKey(SubjectKey(ev'), SHORT);
    SharedCounterFires(LONG, SHORT, T.Threshold(2, 60), ev, ev');
  }

  // -------------------------------------------------------------------------
  // One event
  // -------------------------------------------------------------------------

  /** Whether an event is a hit for the counter of `subject` and rule `r`. */
  predicate IsHit(rules: seq<Rule>, ev: SecurityEvent, subject: string, r: nat)
    requires r < |rules|
  {
    SubjectKey(ev) == subject && rules[r].matches(ev)
  }

  lemma {:induction false} EvaluateHits(rules: seq<Rule>, n: nat, hits: Hits, ev: SecurityEvent, subject: string, r: nat)
    requires Keyed(rules) && n <= |rules| && r < |rules| && rules[r].threshold.Some?
    ensures var key := HitKey(subject, rules[r]);
      StoredHits(Evaluate(rules[..n], hits, ev).hits, key)
      == if r < n && IsHit(rules, ev, subject, r)
         then T.Recorded(StoredHits(hits, key), ev.timestamp, rules[r].threshold.value)
         else StoredHits(hits, key)
  {
    hide HitKey, Apart, T.Recorded;
    if n > 0 {
      EvaluateHits(rules, n - 1, hits, ev, subject, r);
      assert rules[..n][..n - 1] == rules[..n - 1];
      if rules[n - 1].threshold.Some? {
        HitKeyInjective(SubjectKey(ev), rules[n - 1], subject, rules[r]);
      }
    }
  }

  ghost predicate Finds(e: Evaluation, id: string) {
    exists f :: f in e.findings && f.ruleID == id
  }

  /** What one more rule adds to the findings: its own, when it fires. */
  lemma OneRuleFinds(e: Evaluation, rule: Rule, ev: SecurityEvent, id: string)
    requires rule.threshold.Some?
    ensures var e' := EvaluateRule(e, rule, ev);
      Finds(e', id) <==>
        || Finds(e, id)
        || (id == rule.id && rule.matches(ev)
            && |StoredHits(e'.hits, HitKey(SubjectKey(ev), rule))| >= rule.threshold.value.count)
  {
    hide SubjectKey, HitKey, Found, T.Recorded;
    FoundNames(rule, ev);
    assert Found(rule, ev) in e.findings + [Found(rule, ev)];
    assert forall f :: f in e.findings ==> f in e.findings + [Found(rule, ev)];
  }

  lemma OtherRuleFinds(e: Evaluation, rule: Rule, ev: SecurityEvent, id: string)
    requires rule.id != id
    ensures Finds(EvaluateRule(e, rule, ev), id) <==> Finds(e, id)
  {
    hide SubjectKey, HitKey, Found, T.Recorded;
    FoundNames(rule, ev);
    assert forall f :: f in e.findings ==> f in e.findings + [Found(rule, ev)];
  }

  /** Which findings an event gives rise to: a threshold rule's exactly when it
      matches and its counter is full. */
  lemma {:induction false} EvaluateFinds(rules: seq<Rule>, n: nat, hits: Hits, ev: SecurityEvent, r: nat)
    requires Keyed(rules) && n <= |rules| && r < n && rules[r].threshold.Some?
    ensures Finds(Evaluate(rules[..n], hits, ev), rules[r].id)
      <==> rules[r].matches(ev)
           && |StoredHits(Evaluate(rules[..n], hits, ev).hits, HitKey(SubjectKey(ev), rules[r]))| >= rules[r].threshold.value.count
  {
    hide HitKey, Apart, T.Recorded, SubjectKey, StoredHits, EvaluateRule, Finds;
    var before := Evaluate(rules[..n - 1], hits, ev);
    assert rules[..n][..n - 1] == rules[..n - 1];
    assert Evaluate(rules[..n], hits, ev) == EvaluateRule(before, rules[n - 1], ev);
    hide Evaluate;
    if r < n - 1 {
      EvaluateFinds(rules, n - 1, hits, ev, r);
      EvaluateHits(rules, n, hits, ev, SubjectKey(ev), r);
      EvaluateHits(rules, n - 1, hits, ev, SubjectKey(ev), r);
      OtherRuleFinds(before, rules[n - 1], ev, rules[r].id);
    } else {
      NotFoundBefore(rules, n - 1, hits, ev);
      OneRuleFinds(before, rules[r], ev, rules[r].id);
    }
  }

  lemma NotFoundBefore(rules: seq<Rule>, r: nat, hits: Hits, ev: SecurityEvent)
    requires Keyed(rules) && r < |rules|
    ensures !Finds(Evaluate(rules[..r], hits, ev), rules[r].id)
  {
    hide Evaluate, Apart;
    FoundUnder(rules, r, hits, ev);
  }

  lemma FoundNames(rule: Rule, ev: SecurityEvent)
    ensures Found(rule, ev).ruleID == rule.id
  {
  }

  /** Findings come from the rules evaluated. */
  lemma {:induction false} FoundUnder(rules: seq<Rule>, n: nat, hits: Hits, ev: SecurityEvent)
    requires n <= |rules|
    ensures forall f :: f in Evaluate(rules[..n], hits, ev).findings ==> exists i :: 0 <= i < n && f.ruleID == rules[i].id
  {
    if n > 0 {
      FoundUnder(rules, n - 1, hits, ev);
      assert rules[..n][..n - 1] == rules[..n - 1];
    }
  }

  // -------------------------------------------------------------------------
  // Whole runs
  // -------------------------------------------------------------------------

  /** Whether rule `r` ran on the step's event. */
  predicate Ran(s: Step, r: nat) {
    s.Correlated? || (s.Recorded? && r < s.ran)
  }

  /** When the hits of one subject and rule happened. */
  function HitTimes(rules: seq<Rule>, ss: seq<Step>, subject: string, r: nat): seq<int>
    requires r < |rules|
  {
    if ss == [] then []
    else
      var s := ss[|ss| - 1];
      HitTimes(rules, ss[..|ss| - 1], subject, r)
      + if Ran(s, r) && IsHit(rules, s.ev, subject, r) then [s.ev.timestamp] else []
  }

  lemma HitTimesSnoc(rules: seq<Rule>, ss: seq<Step>, i: nat, subject: string, r: nat)
    requires i < |ss| && r < |rules|
    ensures HitTimes(rules, ss[..i + 1], subject, r)
      == if Ran(ss[i], r) && IsHit(rules, ss[i].ev, subject, r)
         then HitTimes(rules, ss[..i], subject, r) + [ss[i].ev.timestamp] else HitTimes(rules, ss[..i], subject, r)
  {
    hide IsHit;
    assert ss[..i + 1][..i] == ss[..i] && ss[..i + 1][i] == ss[i];
  }

  lemma StepHits(cfg: EngineRuns.Config, w: World, s: Step, w': World, subject: string, r: nat)
    requires Keyed(cfg.rules) && r < |cfg.rules| && cfg.rules[r].threshold.Some? && Takes(cfg, w, s, w')
    ensures var key := HitKey(subject, cfg.rules[r]);
      StoredHits(w'.hits, key)
      == if Ran(s, r) && IsHit(cfg.rules, s.ev, subject, r)
         then T.Recorded(StoredHits(w.hits, key), s.ev.timestamp, cfg.rules[r].threshold.value)
         else StoredHits(w.hits, key)
  {
    hide HitKey, T.Recorded, Evaluate, StoredHits, Recomputed, Keyed;
    if s.Correlated? {
      EvaluateHits(cfg.rules, |cfg.rules|, w.hits, s.ev, subject, r);
      assert cfg.rules[..|cfg.rules|] == cfg.rules;
    } else if s.Recorded? {
      EvaluateHits(cfg.rules, s.ran, w.hits, s.ev, subject, r);
    }
  }

  /** Along every run, with other subjects, failing calls and failing saves in
      between, a counter holds what the threshold machine stores of its history. */
  lemma {:induction false} HitsAreHistory(cfg: EngineRuns.Config, ws: seq<World>, ss: seq<Step>, i: nat, subject: string, r: nat)
    requires Run(cfg, ws, ss) && i < |ws|
    requires Keyed(cfg.rules) && r < |cfg.rules| && cfg.rules[r].threshold.Some?
    ensures StoredHits(ws[i].hits, HitKey(subject, cfg.rules[r]))
      == T.Stored(HitTimes(cfg.rules, ss[..i], subject, r), cfg.rules[r].threshold.value)
  {
    hide Takes, HitKey, T.Recorded, Keyed, IsHit;
    if i == 0 {
      assert ss[..0] == [];
    } else {
      HitsAreHistory(cfg, ws, ss, i - 1, subject, r);
      assert Takes(cfg, ws[i - 1], ss[i - 1], ws[i - 1 + 1]);
      StepHits(cfg, ws[i - 1], ss[i - 1], ws[i], subject, r);
      HitTimesSnoc(cfg.rules, ss, i - 1, subject, r);
      if Ran(ss[i - 1], r) && IsHit(cfg.rules, ss[i - 1].ev, subject, r) {
        T.StoredSnoc(HitTimes(cfg.rules, ss[..i - 1], subject, r), ss[i - 1].ev.timestamp, cfg.rules[r].threshold.value);
      }
    }
  }

  /** In every run, an event gives rise to a threshold rule's finding exactly when
      the rule matches it and its hits so far, this one included, meet the threshold;
      it then rests on that many recorded hits of its own subject and rule, none of
      them older than the window. */
  lemma FindingRestsOnHits(cfg: EngineRuns.Config, ws: seq<World>, ss: seq<Step>, i: nat, r: nat)
    requires Run(cfg, ws, ss) && i < |ss| < |ws| && ss[i].Correlated?
    requires Keyed(cfg.rules) && r < |cfg.rules| && cfg.rules[r].threshold.Some?
    ensures var ev, th := ss[i].ev, cfg.rules[r].threshold.value;
      var history := HitTimes(cfg.rules, ss[..i + 1], SubjectKey(ev), r);
      && (Finds(Evaluate(cfg.rules, ws[i].hits, ev), cfg.rules[r].id)
          <==> cfg.rules[r].matches(ev) && T.Met(history, th))
      && (cfg.rules[r].matches(ev) && T.Met(history, th) ==> |T.Recent(history, ev.timestamp - th.window)| >= th.count)
      && (T.NonDecreasing(history) && cfg.rules[r].matches(ev) ==> (T.Met(history, th) <==> T.Ideal(history, th)))
  {
    hide Run, Keyed, HitTimes, Evaluate, Finds, T.Stored, T.Recent, T.NonDecreasing, T.Ideal, HitKey, SubjectKey;
    var ev, th := ss[i].ev, cfg.rules[r].threshold.value;
    var history := HitTimes(cfg.rules, ss[..i + 1], SubjectKey(ev), r);
    assert cfg.rules[..|cfg.rules|] == cfg.rules;
    HitTimesSnoc(cfg.rules, ss, i, SubjectKey(ev), r);
    HitsAreHistory(cfg, ws, ss, i + 1, SubjectKey(ev), r);
    EvaluateFinds(cfg.rules, |cfg.rules|, ws[i].hits, ev, r);
    HitsAfter(cfg, ws, ss, i);
    if cfg.rules[r].matches(ev) {
      T.SoundInAnyOrder(history, th);
      if T.NonDecreasing(history) {
        T.ExactInOrder(history, th);
      }
    }
  }

  lemma HitsAfter(cfg: EngineRuns.Config, ws: seq<World>, ss: seq<Step>, i: nat)
    requires Run(cfg, ws, ss) && i < |ss| < |ws| && ss[i].Correlated?
    ensures ws[i + 1].hits == Evaluate(cfg.rules, ws[i].hits, ss[i].ev).hits
  {
    hide Evaluate, Recomputed;
    assert Takes(cfg, ws[i], ss[i], ws[i + 1]);
  }
}

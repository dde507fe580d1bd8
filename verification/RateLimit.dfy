/** The login attempt limiter: a table of counters, windows and blocks, and the
    exact guarantee it gives per window. */
module RateLimit {

  const WINDOW_MS := 900_000
  const MAX_ATTEMPTS := 8
  const BLOCK_MS := 900_000
  const MAX_TRACKED := 5_000

  datatype Attempt = Attempt(count: int, firstAt: int, blockedUntil: int)

  type Table = map<string, Attempt>

  predicate Stale(a: Attempt, now: int) {
    now > a.blockedUntil && now - a.firstAt > WINDOW_MS
  }

  function Swept(t: Table, now: int): Table {
    map key | key in t && !Stale(t[key], now) :: t[key]
  }

  /** Seconds left of a block, rounded up; 0 when the caller may try. */
  function Blocked(t: Table, key: string, now: int): int {
    if key !in t || now >= t[key].blockedUntil then 0
    else (t[key].blockedUntil - now + 999) / 1000
  }

  function Counted(a: Attempt, now: int): Attempt {
    if a.count + 1 >= MAX_ATTEMPTS then Attempt(0, now, now + BLOCK_MS)
    else a.(count := a.count + 1)
  }

  predicate Dropped(t: Table, key: string, now: int) {
    |Swept(t, now)| >= MAX_TRACKED && key !in Swept(t, now)
  }

  function Failed(t: Table, key: string, now: int): Table {
    var s := Swept(t, now);
    if Dropped(t, key, now) then s
    else if key !in s || now - s[key].firstAt > WINDOW_MS then s[key := Attempt(1, now, 0)]
    else s[key := Counted(s[key], now)]
  }

  class Limiter {
    var attempts: Table

    constructor ()
      ensures attempts == map[]
    {
      attempts := map[];
    }

    method Sweep(now: int)
      modifies this
      ensures attempts == Swept(old(attempts), now)
    {
      var rest := attempts.Keys;
      while rest != {}
        invariant rest <= attempts.Keys <= old(attempts).Keys
        invariant forall key :: key in attempts ==> attempts[key] == old(attempts)[key]
        invariant forall key :: key in old(attempts) ==>
          (key in attempts <==> key in rest || !Stale(old(attempts)[key], now))
      {
        var key :| key in rest;
        if now > attempts[key].blockedUntil && now - attempts[key].firstAt > WINDOW_MS {
          attempts := attempts - {key};
        }
        rest := rest - {key};
      }
    }

    method BlockedFor(key: string, now: int) returns (seconds: int)
      ensures seconds == Blocked(attempts, key, now)
      ensures seconds == 0 <==> key !in attempts || now >= attempts[key].blockedUntil
      ensures seconds >= 0
    {
      if key !in attempts || now >= attempts[key].blockedUntil {
        return 0;
      }
      seconds := (attempts[key].blockedUntil - now + 999) / 1000;
    }

    method RecordFailure(key: string, now: int)
      modifies this
      ensures attempts == Failed(old(attempts), key, now)
    {
      Sweep(now);
      if |attempts| >= MAX_TRACKED && key !in attempts {
        return;
      }
      if key !in attempts || now - attempts[key].firstAt > WINDOW_MS {
        attempts := attempts[key := Attempt(1, now, 0)];
        return;
      }
      var existing := attempts[key];
      existing := existing.(count := existing.count + 1);
      if existing.count >= MAX_ATTEMPTS {
        existing := existing.(blockedUntil := now + BLOCK_MS);
        existing := existing.(count := 0);
        existing := existing.(firstAt := now);
      }
      attempts := attempts[key := existing];
    }

    method RecordSuccess(key: string)
      modifies this
      ensures attempts == old(attempts) - {key}
    {
      attempts := attempts - {key};
    }
  }

  // -------------------------------------------------------------------------
  // Runs
  // -------------------------------------------------------------------------

  datatype Step = Failure(key: string, at: nat) | Success(key: string)

  function Next(t: Table, s: Step): Table {
    match s
    case Failure(key, at) => Failed(t, key, at)
    case Success(key) => t - {key}
  }

  function Run(steps: seq<Step>): Table {
    if steps == [] then map[] else Next(Run(steps[..|steps| - 1]), steps[|steps| - 1])
  }

  /** The clock never runs backwards, and `now` is not before any step. */
  ghost predicate Clocked(steps: seq<Step>, now: int) {
    && (forall i, j :: 0 <= i < j < |steps| && steps[i].Failure? && steps[j].Failure? ==> steps[i].at <= steps[j].at)
    && (forall i :: 0 <= i < |steps| && steps[i].Failure? ==> steps[i].at <= now)
  }

  /** One step of a run in which `key` is checked before each failure is recorded,
      never succeeds and is never turned away by a full table. Other keys do as
      they please. */
  predicate GatedStep(t: Table, key: string, s: Step) {
    s.key == key ==> s.Failure? && Blocked(t, key, s.at) == 0 && !Dropped(t, key, s.at)
  }

  ghost predicate Gated(steps: seq<Step>, key: string) {
    forall i :: 0 <= i < |steps| ==> GatedStep(Run(steps[..i]), key, steps[i])
  }

  /** When the failures of `key` were recorded. */
  function Times(steps: seq<Step>, key: string): seq<int> {
    if steps == [] then []
    else
      var last := steps[|steps| - 1];
      Times(steps[..|steps| - 1], key) + if last.Failure? && last.key == key then [last.at] else []
  }

  /** All but the last seven of the first `m` failures lie at least a window before `at`. */
  ghost predicate OldEnough(times: seq<int>, m: int, at: int) {
    forall q :: 0 <= q < m - (MAX_ATTEMPTS - 1) && q < |times| ==> times[q] + WINDOW_MS <= at
  }

  /** What the table remembers of the history of one key. */
  ghost predicate Remembers(t: Table, key: string, times: seq<int>, now: int) {
    && (forall i, j :: 0 <= i < j < |times| ==> times[i] <= times[j])
    && (forall i :: 0 <= i < |times| ==> times[i] <= now)
    && (forall i :: 0 <= i < |times| - 15 ==> times[i + 15] - times[i] >= WINDOW_MS)
    && if key !in t then OldEnough(times, |times|, now)
       else
         var a := t[key];
         var m := |times| - a.count;
         && 0 <= a.count < MAX_ATTEMPTS && m >= 0 && a.firstAt <= now
         && if a.count == 0 then m > 0 && times[m - 1] == a.firstAt && a.blockedUntil == a.firstAt + BLOCK_MS
            else
              && OldEnough(times, m, times[m])
              && (|| (a.blockedUntil == 0 && times[m] == a.firstAt)
                  || (a.blockedUntil == a.firstAt + BLOCK_MS && times[m] >= a.blockedUntil
                      && (m > 0 ==> times[m - 1] <= a.firstAt)))
  }

  /** Forgetting a stale counter, or starting over, loses nothing the bound needs. */
  lemma StaleIsOld(t: Table, key: string, times: seq<int>, now: int, at: int)
    requires Remembers(t, key, times, now) && key in t && at - t[key].firstAt > WINDOW_MS
    ensures OldEnough(times, |times|, at)
  {
    var m := |times| - t[key].count;
    forall q | 0 <= q < |times| - (MAX_ATTEMPTS - 1) ensures times[q] + WINDOW_MS <= at {
      assert m > 0 ==> times[q] <= times[m - 1] || q >= m;
      assert t[key].count > 0 ==> times[q] <= times[m] || q > m;
    }
  }

  lemma Later(t: Table, key: string, times: seq<int>, now: int, at: int)
    requires Remembers(t, key, times, now) && now <= at
    ensures Remembers(t, key, times, at)
  {
  }

  lemma SweepRemembers(t: Table, key: string, times: seq<int>, at: int)
    requires Remembers(t, key, times, at)
    ensures Remembers(Swept(t, at), key, times, at)
  {
    if key in t && Stale(t[key], at) {
      StaleIsOld(t, key, times, at, at);
    }
  }

  /** Sixteen failures ending at `at` span a window once the older ones are old. */
  lemma SpacedOut(times: seq<int>, m: int, at: int)
    requires forall i :: 0 <= i < |times| - 15 ==> times[i + 15] - times[i] >= WINDOW_MS
    requires |times| - (MAX_ATTEMPTS - 1) <= m && OldEnough(times, m, at)
    ensures forall i :: 0 <= i < |times + [at]| - 15 ==> (times + [at])[i + 15] - (times + [at])[i] >= WINDOW_MS
  {
    var all := times + [at];
    forall i | 0 <= i < |all| - 15 ensures all[i + 15] - all[i] >= WINDOW_MS {
      assert i < |times| - 15 ==> all[i + 15] == times[i + 15];
    }
  }

  lemma StartsOver(t: Table, key: string, times: seq<int>, at: int)
    requires Remembers(t, key, times, at) && OldEnough(times, |times|, at)
    ensures Remembers(t[key := Attempt(1, at, 0)], key, times + [at], at)
  {
    SpacedOut(times, |times|, at);
    assert (times + [at])[|times|] == at;
  }

  /** The first failure after a block, at the very instant it ends. */
  lemma CountsFromBlock(t: Table, key: string, times: seq<int>, at: int)
    requires Remembers(t, key, times, at) && key in t && t[key].count == 0
    requires at >= t[key].blockedUntil && at - t[key].firstAt <= WINDOW_MS
    ensures Remembers(t[key := Counted(t[key], at)], key, times + [at], at)
  {
    SpacedOut(times, |times|, at);
    assert (times + [at])[|times|] == at;
  }

  lemma CountsUp(t: Table, key: string, times: seq<int>, at: int)
    requires Remembers(t, key, times, at) && key in t && 0 < t[key].count < MAX_ATTEMPTS - 1
    ensures Remembers(t[key := t[key].(count := t[key].count + 1)], key, times + [at], at)
  {
    var m := |times| - t[key].count;
    SpacedOut(times, m, at);
    assert (times + [at])[m] == times[m];
  }

  lemma BlocksAtEight(t: Table, key: string, times: seq<int>, at: int)
    requires Remembers(t, key, times, at) && key in t && t[key].count == MAX_ATTEMPTS - 1
    ensures Remembers(t[key := Attempt(0, at, at + BLOCK_MS)], key, times + [at], at)
  {
    SpacedOut(times, |times| - t[key].count, at);
    assert (times + [at])[|times|] == at;
  }

  lemma FailureRemembers(t: Table, key: string, times: seq<int>, at: int)
    requires Remembers(t, key, times, at)
    requires Blocked(t, key, at) == 0 && !Dropped(t, key, at)
    ensures Remembers(Failed(t, key, at), key, times + [at], at)
  {
    var s := Swept(t, at);
    SweepRemembers(t, key, times, at);
    if key !in s || at - s[key].firstAt > WINDOW_MS {
      if key in s {
        StaleIsOld(s, key, times, at, at);
      }
      StartsOver(s, key, times, at);
    } else if s[key].count == 0 {
      CountsFromBlock(s, key, times, at);
    } else {
      if s[key].count == MAX_ATTEMPTS - 1 {
        BlocksAtEight(s, key, times, at);
      } else {
        CountsUp(s, key, times, at);
      }
    }
  }

  lemma OtherStepRemembers(t: Table, key: string, times: seq<int>, at: int, s: Step)
    requires Remembers(t, key, times, at) && s.key != key && (s.Failure? ==> s.at == at)
    ensures Remembers(Next(t, s), key, times, at)
  {
    if s.Failure? {
      SweepRemembers(t, key, times, at);
    }
  }

  lemma {:induction false} RunRemembers(steps: seq<Step>, key: string, now: nat)
    requires Clocked(steps, now) && Gated(steps, key)
    ensures Remembers(Run(steps), key, Times(steps, key), now)
    decreases |steps|
  {
    if steps != [] {
      var n := |steps| - 1;
      var init, last := steps[..n], steps[n];
      var at := if last.Failure? then last.at else now;
      GatedPrefix(steps, key);
      hide Remembers, Failed, Swept, Blocked, Dropped, Gated;
      RunRemembers(init, key, at);
      if last.key == key {
        FailureRemembers(Run(init), key, Times(init, key), at);
      } else {
        OtherStepRemembers(Run(init), key, Times(init, key), at, last);
        assert Times(steps, key) == Times(init, key);
      }
      Later(Run(steps), key, Times(steps, key), at, now);
    }
  }

  lemma GatedPrefix(steps: seq<Step>, key: string)
    requires steps != [] && Gated(steps, key)
    ensures Gated(steps[..|steps| - 1], key)
    ensures var last := steps[|steps| - 1]; var t := Run(steps[..|steps| - 1]);
      last.key == key ==> last.Failure? && Blocked(t, key, last.at) == 0 && !Dropped(t, key, last.at)
  {
    hide Run, Blocked, Dropped;
    var n := |steps| - 1;
    var init := steps[..n];
    assert GatedStep(Run(steps[..n]), key, steps[n]);
    forall i | 0 <= i < n ensures GatedStep(Run(init[..i]), key, init[i]) {
      assert init[..i] == steps[..i];
    }
  }

  /** The guarantee: sixteen consecutive recorded failures of one key always span
      a whole window, so no half-open window ever holds more than fifteen. */
  lemma FifteenPerWindow(steps: seq<Step>, key: string, now: nat, i: nat, j: nat)
    requires Clocked(steps, now) && Gated(steps, key)
    requires i <= j < |Times(steps, key)| && Times(steps, key)[j] - Times(steps, key)[i] < WINDOW_MS
    ensures j - i + 1 <= 2 * MAX_ATTEMPTS - 1
  {
    RunRemembers(steps, key, now);
    var times := Times(steps, key);
    assert i + 15 < |times| ==> times[i + 15] - times[i] >= WINDOW_MS;
  }

  // The bound is attained: eight failures at 0 block the key; seven the instant
  // the block ends and eight a millisecond later make fifteen.
  function TightAt(i: nat): nat {
    if i < 8 then 0 else if i < 15 then WINDOW_MS else WINDOW_MS + 1
  }

  function Tight(key: string, n: nat): seq<Step> {
    seq(n, i requires i >= 0 => Failure(key, TightAt(i)))
  }

  function TightAttempt(n: nat): Attempt {
    if n < 8 then Attempt(n, 0, 0)
    else if n < 16 then Attempt(n - 8, 0, WINDOW_MS)
    else if n < 23 then Attempt(n - 15, WINDOW_MS + 1, 0)
    else Attempt(0, WINDOW_MS + 1, 2 * WINDOW_MS + 1)
  }

  lemma {:induction false} TightRun(key: string, n: nat)
    requires n <= 23
    ensures Run(Tight(key, n)) == TightTable(key, n)
    ensures Gated(Tight(key, n), key)
    ensures |Times(Tight(key, n), key)| == n
    ensures forall i :: 0 <= i < n ==> Times(Tight(key, n), key)[i] == TightAt(i)
  {
    hide TightTable, Failed, Blocked, Dropped;
    EmptyTightTable(key);
    if n > 0 {
      TightRun(key, n - 1);
      var steps, init := Tight(key, n), Tight(key, n - 1);
      assert steps[..n - 1] == init;
      TightStep(key, n);
      forall i | 0 <= i < n ensures GatedStep(Run(steps[..i]), key, steps[i]) {
        assert i < n - 1 ==> steps[..i] == init[..i] && steps[i] == init[i];
      }
    }
  }

  function TightTable(key: string, n: nat): Table {
    if n == 0 then map[] else map[key := TightAttempt(n)]
  }

  lemma EmptyTightTable(key: string)
    ensures TightTable(key, 0) == map[]
  {
  }

  lemma TightStep(key: string, n: nat)
    requires 0 < n <= 23
    ensures Failed(TightTable(key, n - 1), key, TightAt(n - 1)) == TightTable(key, n)
    ensures GatedStep(TightTable(key, n - 1), key, Failure(key, TightAt(n - 1)))
  {
    var t, at := TightTable(key, n - 1), TightAt(n - 1);
    assert Swept(t, at) == if n == 1 || n == 16 then map[] else t;
    assert |Swept(t, at)| <= 1;
  }

  lemma FifteenAttained(key: string)
    ensures Clocked(Tight(key, 23), WINDOW_MS + 1) && Gated(Tight(key, 23), key)
    ensures |Times(Tight(key, 23), key)| == 23
    ensures Times(Tight(key, 23), key)[22] - Times(Tight(key, 23), key)[8] < WINDOW_MS
  {
    TightRun(key, 23);
  }

  // -------------------------------------------------------------------------
  // Blocks
  // -------------------------------------------------------------------------

  ghost predicate Consistent(t: Table, now: int) {
    forall key :: key in t ==>
      && 0 <= t[key].count < MAX_ATTEMPTS && t[key].firstAt <= now
      && (t[key].blockedUntil == 0 || t[key].blockedUntil == t[key].firstAt + BLOCK_MS)
  }

  /** Neither a failure of any key nor the sweep it triggers shortens any block. */
  lemma FailureKeepsBlocks(t: Table, key: string, now: nat, other: string, at: int)
    requires Consistent(t, now) && now <= at
    ensures Consistent(Failed(t, key, now), now)
    ensures Blocked(Failed(t, key, now), other, at) >= Blocked(t, other, at)
  {
  }

  lemma {:induction false} RunConsistent(steps: seq<Step>, now: nat)
    requires Clocked(steps, now)
    ensures Consistent(Run(steps), now)
    decreases |steps|
  {
    if steps != [] {
      var n := |steps| - 1;
      var last := steps[n];
      var at := if last.Failure? then last.at else now;
      RunConsistent(steps[..n], at);
      if last.Failure? {
        FailureKeepsBlocks(Run(steps[..n]), last.key, at, last.key, at);
      }
    }
  }

  /** Once imposed, a block runs its full course: whatever happens afterwards,
      short of that key succeeding, at no later instant is less of it left. */
  lemma {:induction false} BlocksRunTheirCourse(before: seq<Step>, after: seq<Step>, key: string, at: nat)
    requires Clocked(before + after, at)
    requires Success(key) !in after
    ensures Blocked(Run(before + after), key, at) >= Blocked(Run(before), key, at)
    decreases |after|
  {
    if after == [] {
      assert before + after == before;
    } else {
      var n := |after| - 1;
      var steps := before + after;
      hide Blocked, Run;
      assert steps[..|steps| - 1] == before + after[..n] && steps[|steps| - 1] == after[n];
      assert after[n] in after;
      BlocksRunTheirCourse(before, after[..n], key, at);
      StepKeepsBlock(steps, key, at);
    }
  }

  lemma StepKeepsBlock(steps: seq<Step>, key: string, at: nat)
    requires steps != [] && Clocked(steps, at) && steps[|steps| - 1] != Success(key)
    ensures Blocked(Run(steps), key, at) >= Blocked(Run(steps[..|steps| - 1]), key, at)
  {
    hide Failed, Consistent;
    var init, last := steps[..|steps| - 1], steps[|steps| - 1];
    if last.Failure? {
      RunConsistent(init, last.at);
      FailureKeepsBlocks(Run(init), last.key, last.at, key, at);
    }
  }
}

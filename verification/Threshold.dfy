/** The sliding-window hit counter behind stateful detection rules. Each hit
    compacts the stored timestamps in place and keeps only the newest few; the
    question is what that truncated memory still knows about the full history. */
module Threshold {

  datatype Threshold = Threshold(count: nat, window: int)

  /** What rule validation accepts. */
  predicate Valid(th: Threshold) {
    th.count >= 2 && th.window > 0
  }

  /** The hits not before `cutoff`, in arrival order. */
  function Recent(hits: seq<int>, cutoff: int): seq<int> {
    if hits == [] then []
    else
      var t := hits[|hits| - 1];
      Recent(hits[..|hits| - 1], cutoff) + if t >= cutoff then [t] else []
  }

  function Newest(hits: seq<int>, n: nat): seq<int> {
    if |hits| > n then hits[|hits| - n..] else hits
  }

  /** What one more hit at `at` leaves stored. */
  function Recorded(stored: seq<int>, at: int, th: Threshold): seq<int> {
    Newest(Recent(stored + [at], at - th.window), th.count)
  }

  method RecordHit(stored: seq<int>, at: int, th: Threshold) returns (kept: seq<int>)
    ensures kept == Recorded(stored, at, th)
  {
    hide Recent;
    NothingRecent(at - th.window);
    var cutoff := at - th.window;
    var all := stored + [at];
    var hits := new int[|all|](i requires 0 <= i < |all| => all[i]);
    var w := 0;
    for r := 0 to hits.Length
      invariant w <= r
      invariant hits[..w] == Recent(all[..r], cutoff)
      invariant forall i :: r <= i < hits.Length ==> hits[i] == all[i]
    {
      assert all[..r + 1] == all[..r] + [all[r]];
      RecentSnoc(all[..r], all[r], cutoff);
      var t := hits[r];
      if t >= cutoff {
        ghost var before := hits[..w];
        hits[w] := t;
        assert hits[..w] == before;
        w := w + 1;
      }
    }
    assert all[..hits.Length] == all;
    var start := if w > th.count then w - th.count else 0;
    kept := hits[start..w];
    assert kept == hits[..w][start..];
  }

  /** The stored timestamps after a whole history of hits. */
  function Stored(history: seq<int>, th: Threshold): seq<int> {
    if history == [] then []
    else Recorded(Stored(history[..|history| - 1], th), history[|history| - 1], th)
  }

  /** Whether the last hit of the history satisfies the threshold. */
  predicate Met(history: seq<int>, th: Threshold) {
    |Stored(history, th)| >= th.count
  }

  /** The ideal counter: every recorded hit within the window ending at the last one. */
  function InWindow(hits: seq<int>, from: int, to: int): nat {
    if hits == [] then 0
    else
      var t := hits[|hits| - 1];
      InWindow(hits[..|hits| - 1], from, to) + if from <= t <= to then 1 else 0
  }

  predicate Ideal(history: seq<int>, th: Threshold)
    requires history != []
  {
    var at := history[|history| - 1];
    InWindow(history, at - th.window, at) >= th.count
  }

  predicate NonDecreasing(s: seq<int>) {
    forall i, j :: 0 <= i < j < |s| ==> s[i] <= s[j]
  }

  // -------------------------------------------------------------------------
  // In arrival order the truncated counter is exact
  // -------------------------------------------------------------------------

  function First(s: seq<int>, cutoff: int): (k: nat)
    ensures k <= |s|
    ensures NonDecreasing(s) ==> forall i :: 0 <= i < k ==> s[i] < cutoff
    ensures forall i :: k <= i < |s| ==> s[i] >= cutoff
  {
    if s == [] then 0
    else if s[|s| - 1] < cutoff then |s|
    else First(s[..|s| - 1], cutoff)
  }

  lemma {:induction false} RecentIsSuffix(s: seq<int>, cutoff: int)
    requires NonDecreasing(s)
    ensures Recent(s, cutoff) == s[First(s, cutoff)..]
  {
    if s != [] {
      var n := |s| - 1;
      var k := First(s, cutoff);
      RecentIsSuffix(s[..n], cutoff);
      assert s == s[..n] + [s[n]];
      if s[n] < cutoff {
        assert First(s[..n], cutoff) == n by {
          assert forall i :: 0 <= i < n ==> s[..n][i] < cutoff;
        }
      } else {
        assert k == First(s[..n], cutoff) <= n;
        assert s[k..] == s[..n][k..] + [s[n]];
      }
    }
  }

  lemma {:induction false} FirstIs(s: seq<int>, cutoff: int, k: nat)
    requires NonDecreasing(s) && k <= |s|
    requires forall i :: 0 <= i < k ==> s[i] < cutoff
    requires forall i :: k <= i < |s| ==> s[i] >= cutoff
    ensures First(s, cutoff) == k
  {
    if s != [] && s[|s| - 1] >= cutoff {
      FirstIs(s[..|s| - 1], cutoff, k);
    }
  }

  function Later(a: nat, b: nat): nat {
    if a < b then b else a
  }

  /** Suffix arithmetic: cutting a suffix again keeps the later of the cuts. */
  lemma RecentOfSuffix(s: seq<int>, a: nat, cutoff: int)
    requires NonDecreasing(s) && a <= |s|
    ensures Recent(s[a..], cutoff) == s[Later(a, First(s, cutoff))..]
  {
    hide Recent;
    var l := Later(a, First(s, cutoff)) - a;
    forall i | 0 <= i < |s[a..]| ensures s[a..][i] == s[a + i] {
    }
    FirstIs(s[a..], cutoff, l);
    RecentIsSuffix(s[a..], cutoff);
    assert s[a..][l..] == s[a + l..];
  }

  function Start(history: seq<int>, th: Threshold): (k: nat)
    requires history != []
    ensures k <= |history|
  {
    var k := First(history, history[|history| - 1] - th.window);
    if |history| - k > th.count then |history| - th.count else k
  }

  /** The stored list is the last min(count, in-window) hits of the history. */
  lemma {:induction false} StoredIsSuffix(history: seq<int>, th: Threshold)
    requires NonDecreasing(history) && history != []
    ensures Stored(history, th) == history[Start(history, th)..]
  {
    hide Recent, First, NonDecreasing, Newest, Start;
    var n := |history| - 1;
    var init := history[..n];
    PrefixInOrder(history, n);
    SuffixPlus(history, 0);
    if init != [] {
      StoredIsSuffix(init, th);
      StartRises(history, th);
      SuffixPlus(history, Start(init, th));
      StoredStep(history, th, Start(init, th));
    } else {
      StoredStep(history, th, 0);
    }
  }

  lemma StartRises(history: seq<int>, th: Threshold)
    requires NonDecreasing(history) && |history| > 1
    ensures Start(history[..|history| - 1], th) <= Start(history, th)
  {
    hide First, NonDecreasing;
    var n := |history| - 1;
    PrefixInOrder(history, n);
    FirstRises(history[..n], history[n - 1] - th.window, history, history[n] - th.window);
  }

  /** One hit more on a stored suffix. */
  lemma StoredStep(history: seq<int>, th: Threshold, a: nat)
    requires NonDecreasing(history) && history != [] && a <= |history| - 1
    requires Stored(history[..|history| - 1], th) + [history[|history| - 1]] == history[a..]
    requires a <= Start(history, th)
    ensures Stored(history, th) == history[Start(history, th)..]
  {
    hide Recent, First, NonDecreasing, Newest;
    var cutoff := history[|history| - 1] - th.window;
    assert Stored(history, th) == Newest(Recent(history[a..], cutoff), th.count);
    hide Stored;
    RecentOfSuffix(history, a, cutoff);
    NewestOfSuffix(history, Later(a, First(history, cutoff)), th.count);
  }

  lemma PrefixInOrder(history: seq<int>, n: nat)
    requires NonDecreasing(history) && n < |history|
    ensures NonDecreasing(history[..n])
    ensures n > 0 ==> history[n - 1] <= history[n]
  {
  }

  lemma SuffixPlus(history: seq<int>, a: nat)
    requires history != [] && a <= |history| - 1
    ensures history[..|history| - 1][a..] + [history[|history| - 1]] == history[a..]
    ensures [] + [history[|history| - 1]] == [history[|history| - 1]]
    ensures |history| == 1 ==> history[a..] == [history[|history| - 1]]
  {
  }

  lemma NewestOfSuffix(s: seq<int>, b: nat, n: nat)
    requires b <= |s|
    ensures Newest(s[b..], n) == s[if |s| - b > n then |s| - n else b..]
  {
    if |s| - b > n {
      assert s[b..][|s[b..]| - n..] == s[|s| - n..];
    }
  }

  lemma FirstRises(init: seq<int>, earlier: int, history: seq<int>, later: int)
    requires NonDecreasing(history) && init <= history && earlier <= later
    ensures First(init, earlier) <= First(history, later) || First(init, earlier) == 0
    ensures First(init, earlier) <= First(history, later)
  {
    var k := First(init, earlier);
    assert forall i :: 0 <= i < k ==> init[i] == history[i];
  }

  lemma {:induction false} InWindowIsRecent(s: seq<int>, from: int, to: int)
    requires forall i :: 0 <= i < |s| ==> s[i] <= to
    ensures InWindow(s, from, to) == |Recent(s, from)|
  {
    if s != [] {
      InWindowIsRecent(s[..|s| - 1], from, to);
    }
  }

  lemma ExactInOrder(history: seq<int>, th: Threshold)
    requires NonDecreasing(history) && history != []
    ensures Met(history, th) <==> Ideal(history, th)
  {
    hide Recent, First, Stored, InWindow;
    var at := history[|history| - 1];
    StoredIsSuffix(history, th);
    InWindowIsRecent(history, at - th.window, at);
    RecentIsSuffix(history, at - th.window);
  }

  // -------------------------------------------------------------------------
  // Out of order
  // -------------------------------------------------------------------------

  lemma {:induction false} RecentSplits(s: seq<int>, t: seq<int>, cutoff: int)
    ensures Recent(s + t, cutoff) == Recent(s, cutoff) + Recent(t, cutoff)
    decreases |t|
  {
    if t == [] {
      assert s + t == s;
    } else {
      var n := |t| - 1;
      assert (s + t)[..|s + t| - 1] == s + t[..n];
      RecentSplits(s, t[..n], cutoff);
    }
  }

  lemma {:induction false} RecentCount(s: seq<int>, cutoff: int, x: int)
    ensures multiset(Recent(s, cutoff))[x] == if x >= cutoff then multiset(s)[x] else 0
    decreases |s|
  {
    if s != [] {
      var n := |s| - 1;
      assert s == s[..n] + [s[n]];
      RecentCount(s[..n], cutoff, x);
    }
  }

  lemma NewestCount(s: seq<int>, n: nat, x: int)
    ensures multiset(Newest(s, n))[x] <= multiset(s)[x]
  {
    if |s| > n {
      assert s == s[..|s| - n] + s[|s| - n..];
    }
  }

  /** Whatever the order, nothing is ever stored that was not recorded, ... */
  lemma {:induction false} StoredCount(history: seq<int>, th: Threshold, x: int)
    ensures multiset(Stored(history, th))[x] <= multiset(history)[x]
    decreases |history|
  {
    hide Recent, Newest;
    if history != [] {
      var n := |history| - 1;
      assert history == history[..n] + [history[n]];
      StoredCount(history[..n], th, x);
      var hits := Stored(history[..n], th) + [history[n]];
      var recent := Recent(hits, history[n] - th.window);
      RecentCount(hits, history[n] - th.window, x);
      NewestCount(recent, th.count, x);
    }
  }

  /** ... and a met threshold always rests on that many recorded hits at or after
      the start of the window, with no more than `count` timestamps held. */
  lemma SoundInAnyOrder(history: seq<int>, th: Threshold)
    requires history != []
    ensures |Stored(history, th)| <= th.count
    ensures Met(history, th) ==> |Recent(history, history[|history| - 1] - th.window)| >= th.count
  {
    hide Recent;
    var n := |history| - 1;
    var cutoff := history[n] - th.window;
    var stored, recent := Stored(history, th), Recent(history, cutoff);
    forall x ensures multiset(stored)[x] <= multiset(recent)[x] {
      RecentlyStored(history, th, x);
    }
    assert multiset(stored) <= multiset(recent);
    SizesFollow(multiset(stored), multiset(recent));
    assert |stored| == |multiset(stored)| && |recent| == |multiset(recent)|;
  }

  lemma RecentlyStored(history: seq<int>, th: Threshold, x: int)
    requires history != []
    ensures multiset(Stored(history, th))[x] <= multiset(Recent(history, history[|history| - 1] - th.window))[x]
  {
    StoredCount(history, th, x);
    hide Recent, Newest;
    var n := |history| - 1;
    var cutoff := history[n] - th.window;
    var hits := Stored(history[..n], th) + [history[n]];
    RecentCount(history, cutoff, x);
    RecentCount(hits, cutoff, x);
    NewestCount(Recent(hits, cutoff), th.count, x);
  }

  lemma SizesFollow(a: multiset<int>, b: multiset<int>)
    requires a <= b
    ensures |a| <= |b|
  {
    assert b == a + (b - a);
  }

  // -------------------------------------------------------------------------
  // Exactly when the counter agrees with the ideal one
  // -------------------------------------------------------------------------

  /** Every decision along the history, for every threshold a rule may declare. */
  ghost predicate AlwaysExact(history: seq<int>) {
    forall n, th :: 0 < n <= |history| && Valid(th) ==> (Met(history[..n], th) <==> Ideal(history[..n], th))
  }

  /** A window wide enough that nothing in `s` ever leaves it. */
  lemma {:induction false} WideWindow(s: seq<int>) returns (w: int)
    ensures w > 0
    ensures forall i, j :: 0 <= i < |s| && 0 <= j < |s| ==> s[i] >= s[j] - w
  {
    if s == [] {
      w := 1;
    } else {
      var n := |s| - 1;
      var v := WideWindow(s[..n]);
      var first := if n > 0 then s[0] else s[n];
      var gap := if s[n] > first then s[n] - first else first - s[n];
      w := v + gap;
      forall i, j | 0 <= i < |s| && 0 <= j < |s| ensures s[i] >= s[j] - w {
        assert i < n ==> s[..n][i] == s[i];
        assert j < n ==> s[..n][j] == s[j];
        assert n > 0 ==> s[..n][0] == s[0];
      }
    }
  }

  lemma {:induction false} NothingLeaves(s: seq<int>, cutoff: int)
    requires forall i :: 0 <= i < |s| ==> s[i] >= cutoff
    ensures Recent(s, cutoff) == s
  {
    if s != [] {
      NothingLeaves(s[..|s| - 1], cutoff);
    }
  }

  lemma {:induction false} EverythingStored(s: seq<int>, th: Threshold)
    requires |s| <= th.count
    requires forall i, j :: 0 <= i < |s| && 0 <= j < |s| ==> s[i] >= s[j] - th.window
    ensures Stored(s, th) == s
    decreases |s|
  {
    if s != [] {
      var n := |s| - 1;
      EverythingStored(s[..n], th);
      assert s[..n] + [s[n]] == s;
      NothingLeaves(s, s[n] - th.window);
    }
  }

  lemma {:induction false} InWindowMisses(s: seq<int>, from: int, to: int, k: nat)
    requires k < |s| && s[k] > to
    ensures InWindow(s, from, to) < |s|
    decreases |s|
  {
    var n := |s| - 1;
    if k < n {
      InWindowMisses(s[..n], from, to, k);
    } else {
      InWindowBounded(s[..n], from, to);
    }
  }

  lemma {:induction false} InWindowBounded(s: seq<int>, from: int, to: int)
    ensures InWindow(s, from, to) <= |s|
  {
    if s != [] {
      InWindowBounded(s[..|s| - 1], from, to);
    }
  }

  /** A hit arriving before its predecessor's time makes some threshold fire
      although the window ending at it does not hold enough hits. */
  lemma DescentBreaksExactness(history: seq<int>, k: nat) returns (th: Threshold)
    requires k + 1 < |history| && history[k] > history[k + 1]
    ensures Valid(th)
    ensures Met(history[..k + 2], th) && !Ideal(history[..k + 2], th)
  {
    var p := history[..k + 2];
    var w := WideWindow(p);
    th := Threshold(|p|, w);
    EverythingStored(p, th);
    InWindowMisses(p, p[k + 1] - w, p[k + 1], k);
  }

  lemma {:induction false} DescentOrSorted(s: seq<int>) returns (k: int)
    ensures k < 0 ==> NonDecreasing(s)
    ensures k >= 0 ==> k + 1 < |s| && s[k] > s[k + 1]
  {
    if |s| <= 1 {
      k := -1;
    } else {
      var n := |s| - 1;
      k := DescentOrSorted(s[..n]);
      if k < 0 && s[n - 1] > s[n] {
        k := n - 1;
      } else if k < 0 {
        forall i | 0 <= i < n ensures s[i] <= s[n] {
          assert i < n - 1 ==> s[..n][i] <= s[..n][n - 1];
        }
      }
    }
  }

  /** The counter counts what the rule language promises, on every prefix and for
      every threshold, if and only if hits arrive in time order. */
  lemma ExactIffInOrder(history: seq<int>)
    ensures AlwaysExact(history) <==> NonDecreasing(history)
  {
    var k := DescentOrSorted(history);
    if k >= 0 {
      var th := DescentBreaksExactness(history, k);
      assert 0 < k + 2 <= |history|;
    } else {
      forall n, th | 0 < n <= |history| && Valid(th)
        ensures Met(history[..n], th) <==> Ideal(history[..n], th)
      {
        ExactInOrder(history[..n], th);
      }
    }
  }

  lemma StoredSnoc(history: seq<int>, at: int, th: Threshold)
    ensures Stored(history + [at], th) == Recorded(Stored(history, th), at, th)
  {
    assert (history + [at])[..|history|] == history;
  }

  lemma RecentSnoc(s: seq<int>, t: int, cutoff: int)
    ensures Recent(s + [t], cutoff) == Recent(s, cutoff) + if t >= cutoff then [t] else []
  {
    assert (s + [t])[..|s|] == s;
  }

  lemma InWindowSnoc(s: seq<int>, t: int, from: int, to: int)
    ensures InWindow(s + [t], from, to) == InWindow(s, from, to) + if from <= t <= to then 1 else 0
  {
    assert (s + [t])[..|s|] == s;
  }

  /** The other direction fails too: out of order, enough hits can lie in the
      window and the rule still not fire, because a later timestamp evicted them. */
  lemma OutOfOrderMisses()
    ensures Ideal([0, 1] + [100] + [5], Threshold(3, 10))
    ensures !Met([0, 1] + [100] + [5], Threshold(3, 10))
  {
    hide Stored, Recent, InWindow;
    var th := Threshold(3, 10);
    EverythingStored([0, 1], th);
    StoredSnoc([0, 1], 100, th);
    RecentSnoc([0, 1], 100, 90);
    RecentSnoc([0], 1, 90);
    RecentSnoc([], 0, 90);
    assert [] + [0] == [0] && [0] + [1] == [0, 1];
    NothingRecent(90);
    assert Stored([0, 1] + [100], th) == [100];
    StoredSnoc([0, 1] + [100], 5, th);
    NothingLeaves([100] + [5], -5);
    InWindowSnoc([], 0, -5, 5);
    InWindowSnoc([0], 1, -5, 5);
    InWindowSnoc([0, 1], 100, -5, 5);
    InWindowSnoc([0, 1] + [100], 5, -5, 5);
  }

  lemma NothingRecent(cutoff: int)
    ensures Recent([], cutoff) == []
  {
  }
}

/** Reachability in the undirected view of the graph, the blast-radius score it
    defines, and the monotonicity of both under graph growth. Nothing here
    mentions queues or visited maps: this is what the traversal must compute. */
module Reach {
  import opened Entity
  import opened GraphView
  import opened Sums
  import opened Scale

  const DEFAULT_MAX_HOPS: nat := 3

  function HopLimit(maxHops: int): nat {
    if maxHops <= 0 then DEFAULT_MAX_HOPS else maxHops
  }

  predicate JoinedBy(g: View, a: string, b: string, relation: string) {
    EdgeName(a, b, relation) in g.edges || EdgeName(b, a, relation) in g.edges
  }

  ghost predicate Joined(g: View, a: string, b: string) {
    exists relation :: JoinedBy(g, a, b, relation)
  }

  /** A walk from a seed through known entities. */
  ghost predicate Walk(g: View, seeds: set<string>, p: seq<string>) {
    && p != [] && p[0] in seeds
    && (forall i :: 0 <= i < |p| ==> p[i] in g.entities)
    && (forall i :: 0 <= i < |p| - 1 ==> Joined(g, p[i], p[i + 1]))
  }

  /** A set of nodes and everything one step beyond it. */
  ghost function Outward(g: View, s: set<string>): set<string> {
    s + set x | x in g.entities && exists y :: y in s && Joined(g, y, x)
  }

  /** Known entities within `n` undirected steps of a seed. */
  ghost function Ball(g: View, seeds: set<string>, n: nat): set<string> {
    if n == 0 then set x | x in seeds && x in g.entities
    else Outward(g, Ball(g, seeds, n - 1))
  }

  lemma BallKnown(g: View, seeds: set<string>, n: nat)
    ensures forall x :: x in Ball(g, seeds, n) ==> x in g.entities
  {
  }

  lemma {:induction false} BallNested(g: View, seeds: set<string>, m: nat, n: nat)
    requires m <= n
    ensures Ball(g, seeds, m) <= Ball(g, seeds, n)
    decreases n
  {
    if m < n {
      BallNested(g, seeds, m, n - 1);
    }
  }

  /** The ball is exactly what walks of at most `n` steps reach. */
  lemma BallIsWalks(g: View, seeds: set<string>, n: nat, x: string)
    ensures x in Ball(g, seeds, n) <==> exists p :: Walk(g, seeds, p) && p[|p| - 1] == x && |p| <= n + 1
  {
    if x in Ball(g, seeds, n) {
      var p := BallWalk(g, seeds, n, x);
    }
    forall p | Walk(g, seeds, p) && p[|p| - 1] == x && |p| <= n + 1 ensures x in Ball(g, seeds, n) {
      WalkInBall(g, seeds, p);
      BallNested(g, seeds, |p| - 1, n);
    }
  }

  lemma {:induction false} BallWalk(g: View, seeds: set<string>, n: nat, x: string) returns (p: seq<string>)
    requires x in Ball(g, seeds, n)
    ensures Walk(g, seeds, p) && p[|p| - 1] == x && |p| <= n + 1
    decreases n
  {
    if n == 0 {
      p := [x];
    } else if x in Ball(g, seeds, n - 1) {
      p := BallWalk(g, seeds, n - 1, x);
    } else {
      var y :| y in Ball(g, seeds, n - 1) && Joined(g, y, x);
      var q := BallWalk(g, seeds, n - 1, y);
      p := q + [x];
    }
  }

  lemma {:induction false} WalkInBall(g: View, seeds: set<string>, p: seq<string>)
    requires Walk(g, seeds, p)
    ensures p[|p| - 1] in Ball(g, seeds, |p| - 1)
    decreases |p|
  {
    if |p| > 1 {
      var q := p[..|p| - 1];
      assert Walk(g, seeds, q);
      WalkInBall(g, seeds, q);
      assert Joined(g, p[|p| - 2], p[|p| - 1]);
    }
  }

  /** Shortest distance from the seeds. */
  ghost function Hops(g: View, seeds: set<string>, n: nat, x: string): nat
    requires x in Ball(g, seeds, n)
  {
    if n == 0 || x !in Ball(g, seeds, n - 1) then n else Hops(g, seeds, n - 1, x)
  }

  lemma {:induction false} HopsAttained(g: View, seeds: set<string>, n: nat, x: string)
    requires x in Ball(g, seeds, n)
    ensures Hops(g, seeds, n, x) <= n && x in Ball(g, seeds, Hops(g, seeds, n, x))
    ensures Hops(g, seeds, n, x) > 0 ==> x !in Ball(g, seeds, Hops(g, seeds, n, x) - 1)
    decreases n
  {
    hide Ball;
    if n > 0 && x in Ball(g, seeds, n - 1) {
      HopsAttained(g, seeds, n - 1, x);
    }
  }

  lemma HopsLeast(g: View, seeds: set<string>, n: nat, x: string, m: nat)
    requires x in Ball(g, seeds, n) && x in Ball(g, seeds, m)
    ensures Hops(g, seeds, n, x) <= n && x in Ball(g, seeds, Hops(g, seeds, n, x))
    ensures Hops(g, seeds, n, x) <= m
  {
    hide Ball;
    HopsAttained(g, seeds, n, x);
    var h := Hops(g, seeds, n, x);
    if m < h {
      BallNested(g, seeds, m, h - 1);
    }
  }

  // -------------------------------------------------------------------------
  // The score
  // -------------------------------------------------------------------------

  /** What an entity of this criticality contributes at this distance. */
  function Share(criticality: string, hops: nat): real {
    if hops > 0 then Weight(criticality) / hops as real else Weight(criticality)
  }

  ghost function Contribution(g: View, seeds: set<string>, n: nat): string -> real {
    x => if x in Ball(g, seeds, n) && x in g.entities
      then Share(g.entities[x].criticality, Hops(g, seeds, n, x)) else 0.0
  }

  ghost function Weighted(g: View, seeds: set<string>, n: nat): real {
    Sum(Ball(g, seeds, n), Contribution(g, seeds, n))
  }

  /** What the nodes beyond the seeds contribute. */
  ghost function Expansion(g: View, seeds: set<string>, n: nat): real {
    Sum(Ball(g, seeds, n) - Ball(g, seeds, 0), Contribution(g, seeds, n))
  }

  /** What the known seeds weigh by themselves. */
  ghost function SeedWeight(g: View, seeds: set<string>): real {
    Sum(Ball(g, seeds, 0), x => if x in g.entities then Weight(g.entities[x].criticality) else 0.0)
  }

  /** The estimate is expansion and, on top of it, every known seed at full weight. */
  lemma SeedsCountInFull(g: View, seeds: set<string>, n: nat)
    ensures Weighted(g, seeds, n) == SeedWeight(g, seeds) + Expansion(g, seeds, n)
  {
    hide Ball;
    var f := Contribution(g, seeds, n);
    var own := (x: string) => if x in g.entities then Weight(g.entities[x].criticality) else 0.0;
    BallNested(g, seeds, 0, n);
    SumSplits(Ball(g, seeds, 0), Ball(g, seeds, n), f);
    forall x | x in Ball(g, seeds, 0) ensures f(x) == own(x) {
      HopsLeast(g, seeds, n, x, 0);
    }
    SumSame(Ball(g, seeds, 0), f, own);
  }

  /** Only expansion feeds the estimate exactly when no seed is a known entity. */
  lemma ExpansionAloneIff(g: View, seeds: set<string>, n: nat)
    ensures Weighted(g, seeds, n) == Expansion(g, seeds, n) <==> forall x :: x in seeds ==> x !in g.entities
  {
    SeedsCountInFull(g, seeds, n);
    hide Weighted, Expansion;
    var own := (x: string) => if x in g.entities then Weight(g.entities[x].criticality) else 0.0;
    assert SeedWeight(g, seeds) == Sum(Ball(g, seeds, 0), own);
    if x :| x in seeds && x in g.entities {
      assert x in Ball(g, seeds, 0);
      SumRemove(Ball(g, seeds, 0), own, x);
      RankGovernsWeight(g.entities[x].criticality, g.entities[x].criticality);
      forall y ensures 0.0 <= own(y) {
        if y in g.entities {
          RankGovernsWeight(g.entities[y].criticality, g.entities[y].criticality);
        }
      }
      SumNonNegative(Ball(g, seeds, 0) - {x}, own);
    } else {
      assert Ball(g, seeds, 0) == {};
    }
  }

  const LONE := View(map["account:a" := EntityVal("account:a", "account", "a", "", CRITICAL, map[], 1, 1, true)], map[])

  /** A graph of one critical account and nothing to expand to: the account itself
      is the whole estimate. */
  lemma LoneSeedCounts(curve: Curve, n: nat)
    ensures Weighted(LONE, {"account:a"}, n) == 20.0 && Expansion(LONE, {"account:a"}, n) == 0.0
    ensures BlastScore(curve, LONE, {"account:a"}, n) == ScoreOfWeight(curve, 20.0)
    ensures ScoreOfWeight(curve, Expansion(LONE, {"account:a"}, n)) == 0
  {
    NothingBeyond(n);
    NothingBeyond(0);
    SeedsCountInFull(LONE, {"account:a"}, n);
    hide Ball, Weighted;
    assert Expansion(LONE, {"account:a"}, n) == Sum({}, Contribution(LONE, {"account:a"}, n)) == 0.0 by {
      assert Ball(LONE, {"account:a"}, n) - Ball(LONE, {"account:a"}, 0) == {};
    }
    LoneSeedWeighs();
  }

  lemma LoneSeedWeighs()
    ensures SeedWeight(LONE, {"account:a"}) == 20.0
  {
    NothingBeyond(0);
    hide Ball;
    var own := (x: string) => if x in LONE.entities then Weight(LONE.entities[x].criticality) else 0.0;
    assert SeedWeight(LONE, {"account:a"}) == Sum({"account:a"}, own);
    SumRemove({"account:a"}, own, "account:a");
    assert {"account:a"} - {"account:a"} == {};
  }

  lemma {:induction false} NothingBeyond(n: nat)
    ensures Ball(LONE, {"account:a"}, n) == {"account:a"}
  {
    if n > 0 {
      NothingBeyond(n - 1);
    }
  }

  function ScoreOfWeight(curve: Curve, weighted: real): int {
    ClampInt(Percent(curve, weighted / 25.0), 0, 100)
  }

  ghost function BlastScore(curve: Curve, g: View, seeds: set<string>, n: nat): int {
    ScoreOfWeight(curve, Weighted(g, seeds, n))
  }

  ghost function CriticalReach(g: View, seeds: set<string>, n: nat): set<string> {
    set x | x in Ball(g, seeds, n) && x in g.entities && g.entities[x].criticality == CRITICAL
  }

  // -------------------------------------------------------------------------
  // Monotonicity
  // -------------------------------------------------------------------------

  lemma ShareMonotone(c: string, h: nat, c': string, h': nat)
    requires Rank(c) <= Rank(c') && h' <= h
    ensures 0.0 < Share(c, h) <= Share(c', h')
  {
    RankGovernsWeight(c, c');
    if h > 0 {
      DivideMonotone(Weight(c), h as real, Weight(c'), if h' > 0 then h' as real else 1.0);
      assert Weight(c') / 1.0 == Weight(c');
    }
  }

  lemma DivideMonotone(w: real, d: real, w': real, d': real)
    requires 0.0 < w <= w' && 0.0 < d' <= d
    ensures 0.0 < w / d <= w' / d'
  {
    ReciprocalFalls(d', d);
    MulMonotone(w, 1.0 / d, w', 1.0 / d');
    assert w / d == w * (1.0 / d);
    assert w' / d' == w' * (1.0 / d');
  }

  lemma {:induction false} BallGrows(g: View, seeds: set<string>, g': View, seeds': set<string>, n: nat)
    requires Grows(g, g') && seeds <= seeds'
    ensures Ball(g, seeds, n) <= Ball(g', seeds', n)
  {
    if n > 0 {
      BallGrows(g, seeds, g', seeds', n - 1);
      forall x, y | Joined(g, y, x) ensures Joined(g', y, x) {
        var relation :| JoinedBy(g, y, x, relation);
        assert JoinedBy(g', y, x, relation);
      }
    }
  }

  lemma HopsFall(g: View, seeds: set<string>, g': View, seeds': set<string>, n: nat, x: string)
    requires Grows(g, g') && seeds <= seeds' && x in Ball(g, seeds, n)
    ensures x in Ball(g', seeds', n)
    ensures Hops(g', seeds', n, x) <= Hops(g, seeds, n, x)
  {
    hide Ball, Grows;
    BallGrows(g, seeds, g', seeds', n);
    HopsAttained(g, seeds, n, x);
    BallGrows(g, seeds, g', seeds', Hops(g, seeds, n, x));
    HopsLeast(g', seeds', n, x, Hops(g, seeds, n, x));
  }

  lemma WeightedGrows(g: View, seeds: set<string>, g': View, seeds': set<string>, n: nat)
    requires Grows(g, g') && seeds <= seeds'
    ensures 0.0 <= Weighted(g, seeds, n) <= Weighted(g', seeds', n)
  {
    hide Ball;
    var f, f' := Contribution(g, seeds, n), Contribution(g', seeds', n);
    BallGrows(g, seeds, g', seeds', n);
    BallKnown(g, seeds, n);
    BallKnown(g', seeds', n);
    forall x | x in Ball(g, seeds, n) ensures 0.0 <= f(x) <= f'(x) {
      HopsFall(g, seeds, g', seeds', n, x);
      ShareMonotone(g.entities[x].criticality, Hops(g, seeds, n, x),
                    g'.entities[x].criticality, Hops(g', seeds', n, x));
    }
    forall x | x in Ball(g', seeds', n) ensures 0.0 <= f'(x) {
      var h := Hops(g', seeds', n, x);
      ShareMonotone(g'.entities[x].criticality, h, g'.entities[x].criticality, h);
    }
    SumNonNegative(Ball(g, seeds, n), f);
    SumGrows(Ball(g, seeds, n), f, Ball(g', seeds', n), f');
  }

  lemma CriticalReachGrows(g: View, seeds: set<string>, g': View, seeds': set<string>, n: nat)
    requires Grows(g, g') && seeds <= seeds'
    ensures CriticalReach(g, seeds, n) <= CriticalReach(g', seeds', n)
    ensures |CriticalReach(g, seeds, n)| <= |CriticalReach(g', seeds', n)|
  {
    hide Ball;
    var c, c' := CriticalReach(g, seeds, n), CriticalReach(g', seeds', n);
    BallGrows(g, seeds, g', seeds', n);
    forall x | x in c ensures x in c' {
      RankGovernsWeight(g.entities[x].criticality, g'.entities[x].criticality);
    }
    SubsetCardinality(c, c');
  }

  lemma SubsetCardinality<T>(a: set<T>, b: set<T>)
    requires a <= b
    ensures |a| <= |b|
  {
    assert b == a + (b - a);
  }

  /** The blast radius only grows as the graph and the seed set grow. */
  lemma BlastRadiusMonotone(curve: Curve, g: View, seeds: set<string>, g': View, seeds': set<string>, n: nat)
    requires Grows(g, g') && seeds <= seeds'
    ensures Ball(g, seeds, n) <= Ball(g', seeds', n)
    ensures forall x :: x in Ball(g, seeds, n) ==>
      x in Ball(g', seeds', n) && Hops(g', seeds', n, x) <= Hops(g, seeds, n, x)
    ensures Weighted(g, seeds, n) <= Weighted(g', seeds', n)
    ensures 0 <= BlastScore(curve, g, seeds, n) <= BlastScore(curve, g', seeds', n) <= 100
    ensures |CriticalReach(g, seeds, n)| <= |CriticalReach(g', seeds', n)|
  {
    BallGrows(g, seeds, g', seeds', n);
    forall x | x in Ball(g, seeds, n)
      ensures x in Ball(g', seeds', n) && Hops(g', seeds', n, x) <= Hops(g, seeds, n, x)
    {
      HopsFall(g, seeds, g', seeds', n, x);
    }
    WeightedGrows(g, seeds, g', seeds', n);
    PercentMonotone(curve, Weighted(g, seeds, n) / 25.0, Weighted(g', seeds', n) / 25.0);
    CriticalReachGrows(g, seeds, g', seeds', n);
  }

  /** Along any sequence of upserts, whatever else they do. */
  lemma BlastRadiusMonotoneAlongRuns(curve: Curve, g: View, us: seq<Upsert>, seeds: set<string>, seeds': set<string>, n: nat)
    requires seeds <= seeds'
    ensures Weighted(g, seeds, n) <= Weighted(ApplyAll(g, us), seeds', n)
    ensures BlastScore(curve, g, seeds, n) <= BlastScore(curve, ApplyAll(g, us), seeds', n)
    ensures |CriticalReach(g, seeds, n)| <= |CriticalReach(ApplyAll(g, us), seeds', n)|
    ensures forall x :: x in Ball(g, seeds, n) ==>
      x in Ball(ApplyAll(g, us), seeds', n) && Hops(ApplyAll(g, us), seeds', n, x) <= Hops(g, seeds, n, x)
  {
    RunGrows(g, us);
    BlastRadiusMonotone(curve, g, seeds, ApplyAll(g, us), seeds', n);
  }
}

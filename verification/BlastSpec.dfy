/** What a traversal reports. */
module BlastRadii {

  datatype Reached = Reached(
    id: string, typ: string, name: string, criticality: string,
    hops: int, via: string, from: string)

  datatype BlastRadius = BlastRadius(score: int, maxHops: int, criticalAssets: int, reachable: seq<Reached>)
}

/** What a blast-radius estimate must say, stated without an algorithm: who is
    listed, at which distance, reached how, and in which order. The predicate pins
    the whole answer down (`BlastUnique`), so an implementation that meets it owes
    nothing to map iteration order, seed order or repeated seeds. */
module BlastSpec {
  import opened BlastRadii
  import opened Entity
  import opened GraphView
  import opened Order
  import opened Reach
  import opened Scale

  predicate PathLess(a: seq<string>, b: seq<string>) {
    LexLess(StrLess, a, b)
  }

  /** The shortest walk to its end, and among those the lexicographically first. */
  ghost predicate LeastWalk(g: View, seeds: set<string>, p: seq<string>) {
    && Walk(g, seeds, p)
    && (|p| > 1 ==> p[|p| - 1] !in Ball(g, seeds, |p| - 2))
    && (forall q :: Walk(g, seeds, q) && |q| == |p| && q[|q| - 1] == p[|p| - 1] ==> !PathLess(q, p))
  }

  /** `from` precedes `id` on the least walk to `id`. */
  ghost predicate CameFrom(g: View, seeds: set<string>, id: string, from: string) {
    exists p :: LeastWalk(g, seeds, p) && |p| > 1 && p[|p| - 1] == id && p[|p| - 2] == from
  }

  /** The first relation, in order, joining the two. */
  ghost predicate LeastRelation(g: View, a: string, b: string, relation: string) {
    && JoinedBy(g, a, b, relation)
    && (forall r :: JoinedBy(g, a, b, r) ==> !StrLess(r, relation))
  }

  ghost predicate Listed(g: View, seeds: set<string>, n: nat, e: Reached) {
    && e.id in Ball(g, seeds, n) && e.id in g.entities
    && e.hops == Hops(g, seeds, n, e.id)
    && e.typ == g.entities[e.id].typ
    && e.name == g.entities[e.id].name
    && e.criticality == g.entities[e.id].criticality
    && (e.hops == 0 ==> e.from == "" && e.via == "")
    && (e.hops > 0 ==> CameFrom(g, seeds, e.id, e.from) && LeastRelation(g, e.from, e.id, e.via))
  }

  /** Listing order: nearest first, then most critical, then by id. */
  predicate ReachedLess(a: Reached, b: Reached) {
    if a.hops != b.hops then a.hops < b.hops
    else if Rank(a.criticality) != Rank(b.criticality) then Rank(a.criticality) > Rank(b.criticality)
    else StrLess(a.id, b.id)
  }

  ghost function IDs(es: seq<Reached>): set<string> {
    set e | e in es :: e.id
  }

  ghost predicate IsBlast(curve: Curve, g: View, seeds: set<string>, n: nat, r: BlastRadius) {
    && Ascending(ReachedLess, r.reachable)
    && (forall e :: e in r.reachable ==> Listed(g, seeds, n, e))
    && IDs(r.reachable) == Ball(g, seeds, n)
    && r.score == BlastScore(curve, g, seeds, n)
    && r.criticalAssets == |CriticalReach(g, seeds, n)|
    && (forall e :: e in r.reachable ==> e.hops <= r.maxHops)
    && (if r.reachable == [] then r.maxHops == 0 else exists e :: e in r.reachable && e.hops == r.maxHops)
  }

  lemma StrStrict(a: string, b: string)
    ensures StrLess(a, b) || StrLess(b, a) || a == b
    ensures StrLess(a, b) ==> !StrLess(b, a) && a != b
  {
    LexTrichotomy(CharLess, a, b);
  }

  lemma ReachedWeakOrder()
    ensures WeakOrder(ReachedLess)
  {
    StrTotal();
    forall a, b, c | !ReachedLess(b, a) && !ReachedLess(c, b) ensures !ReachedLess(c, a) {
      assert !StrLess(b.id, a.id) && !StrLess(c.id, b.id) ==> !StrLess(c.id, a.id);
    }
    forall a, b | ReachedLess(a, b) ensures !ReachedLess(b, a) {
      StrStrict(a.id, b.id);
    }
  }

  lemma LeastWalkUnique(g: View, seeds: set<string>, p: seq<string>, q: seq<string>)
    requires LeastWalk(g, seeds, p) && LeastWalk(g, seeds, q) && p[|p| - 1] == q[|q| - 1]
    ensures p == q
  {
    WalkInBall(g, seeds, p);
    WalkInBall(g, seeds, q);
    if |p| < |q| {
      BallNested(g, seeds, |p| - 1, |q| - 2);
    } else if |q| < |p| {
      BallNested(g, seeds, |q| - 1, |p| - 2);
    }
    StrTotal();
    LexTrichotomy(StrLess, p, q);
  }

  /** A node is described in exactly one way. */
  lemma ListedUnique(g: View, seeds: set<string>, n: nat, a: Reached, b: Reached)
    requires Listed(g, seeds, n, a) && Listed(g, seeds, n, b) && a.id == b.id
    ensures a == b
  {
    hide LeastWalk, Ball;
    if a.hops > 0 {
      var p :| LeastWalk(g, seeds, p) && |p| > 1 && p[|p| - 1] == a.id && p[|p| - 2] == a.from;
      var q :| LeastWalk(g, seeds, q) && |q| > 1 && q[|q| - 1] == b.id && q[|q| - 2] == b.from;
      LeastWalkUnique(g, seeds, p, q);
      StrStrict(a.via, b.via);
    }
  }

  lemma CoversBall(curve: Curve, g: View, seeds: set<string>, n: nat, r: BlastRadius, q: BlastRadius, e: Reached)
    requires IsBlast(curve, g, seeds, n, r) && IsBlast(curve, g, seeds, n, q) && e in r.reachable
    ensures e in q.reachable
  {
    assert e.id in IDs(q.reachable);
    var f :| f in q.reachable && f.id == e.id;
    ListedUnique(g, seeds, n, e, f);
  }

  /** The estimate is a function of the abstract graph and the seed set. */
  lemma BlastUnique(curve: Curve, g: View, seeds: set<string>, n: nat, r: BlastRadius, q: BlastRadius)
    requires IsBlast(curve, g, seeds, n, r) && IsBlast(curve, g, seeds, n, q)
    ensures r == q
  {
    hide Listed, ReachedLess, BlastScore, CriticalReach, Ball;
    forall e ensures e in r.reachable <==> e in q.reachable {
      if e in r.reachable { CoversBall(curve, g, seeds, n, r, q, e); }
      if e in q.reachable { CoversBall(curve, g, seeds, n, q, r, e); }
    }
    ReachedWeakOrder();
    SortedUnique(ReachedLess, r.reachable, q.reachable);
    if r.reachable != [] {
      var e :| e in r.reachable && e.hops == r.maxHops;
      var f :| f in q.reachable && f.hops == q.maxHops;
    }
  }

  /** Each node is listed once. */
  lemma ListedOnce(curve: Curve, g: View, seeds: set<string>, n: nat, r: BlastRadius, i: nat, j: nat)
    requires IsBlast(curve, g, seeds, n, r)
    requires i < j < |r.reachable|
    ensures r.reachable[i].id != r.reachable[j].id
  {
    if r.reachable[i].id == r.reachable[j].id {
      ListedUnique(g, seeds, n, r.reachable[i], r.reachable[j]);
      ReachedWeakOrder();
    }
  }

  /** Every hop of the drawn path is real: the predecessor is itself listed, one
      step nearer, and joined by the named relation. */
  lemma ProvenanceListed(curve: Curve, g: View, seeds: set<string>, n: nat, r: BlastRadius, e: Reached)
    requires IsBlast(curve, g, seeds, n, r) && e in r.reachable && e.hops > 0
    ensures exists f :: f in r.reachable && f.id == e.from && f.hops == e.hops - 1
    ensures JoinedBy(g, e.from, e.id, e.via)
  {
    var p :| LeastWalk(g, seeds, p) && |p| > 1 && p[|p| - 1] == e.id && p[|p| - 2] == e.from;
    LeastWalkLength(g, seeds, n, p);
    PredecessorNearer(g, seeds, n, p);
    assert e.from in IDs(r.reachable);
    var f :| f in r.reachable && f.id == e.from;
    assert Listed(g, seeds, n, f);
  }

  lemma PredecessorNearer(g: View, seeds: set<string>, n: nat, p: seq<string>)
    requires Walk(g, seeds, p) && |p| > 1
    requires p[|p| - 1] in Ball(g, seeds, n) && |p| == Hops(g, seeds, n, p[|p| - 1]) + 1
    ensures p[|p| - 2] in Ball(g, seeds, n)
    ensures Hops(g, seeds, n, p[|p| - 2]) == |p| - 2
  {
    hide Ball, Hops, Joined;
    var y, x := p[|p| - 2], p[|p| - 1];
    assert y in Ball(g, seeds, |p| - 2) by {
      var q := p[..|p| - 1];
      assert Walk(g, seeds, q);
      WalkInBall(g, seeds, q);
    }
    HopsAttained(g, seeds, n, x);
    BallNested(g, seeds, |p| - 2, n);
    var h := Hops(g, seeds, n, y);
    HopsLeast(g, seeds, n, y, |p| - 2);
    assert x in Ball(g, seeds, h + 1) by {
      assert Joined(g, y, x) && x in g.entities;
      StepOut(g, seeds, h, y, x);
    }
    HopsLeast(g, seeds, n, x, h + 1);
  }

  lemma StepOut(g: View, seeds: set<string>, n: nat, y: string, x: string)
    requires y in Ball(g, seeds, n) && x in g.entities && Joined(g, y, x)
    ensures x in Ball(g, seeds, n + 1)
  {
  }

  lemma LeastWalkLength(g: View, seeds: set<string>, n: nat, p: seq<string>)
    requires LeastWalk(g, seeds, p) && p[|p| - 1] in Ball(g, seeds, n)
    ensures |p| == Hops(g, seeds, n, p[|p| - 1]) + 1
  {
    var x := p[|p| - 1];
    WalkInBall(g, seeds, p);
    HopsLeast(g, seeds, n, x, |p| - 1);
    if Hops(g, seeds, n, x) < |p| - 1 {
      BallNested(g, seeds, Hops(g, seeds, n, x), |p| - 2);
    }
  }
}

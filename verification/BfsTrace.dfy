/** The discovery order of the breadth-first walk, and why finishing it answers
    the specification. A trace is the sequence of everything ever queued; its
    first `popped` elements have been taken off the queue again. */
module BfsTrace {
  import opened Entity
  import opened GraphView
  import opened Order
  import opened Reach
  import opened BlastRadii
  import opened BlastSpec
  import opened Sums

  datatype Queued = Queued(id: string, hops: nat, via: string, from: string)

  /** `parent[k]` is the position of the node that discovered `order[k]`, -1 for seeds. */
  datatype Trace = Trace(order: seq<Queued>, parent: seq<int>)

  ghost function Ids(order: seq<Queued>): set<string> {
    set q | q in order :: q.id
  }

  ghost predicate Shape(t: Trace) {
    && |t.parent| == |t.order|
    && (forall k :: 0 <= k < |t.order| ==> -1 <= t.parent[k] < k)
    && (forall j, k :: 0 <= j < k < |t.order| ==> t.order[j].id != t.order[k].id)
  }

  ghost predicate SeedOK(g: View, seeds: set<string>, q: Queued) {
    q.id in Ball(g, seeds, 0) && q.hops == 0 && q.via == "" && q.from == ""
  }

  /** `q` was discovered from `p` through the first relation joining them. */
  ghost predicate StepOK(g: View, seeds: set<string>, n: nat, p: Queued, q: Queued) {
    && p.id in g.entities && p.hops < n
    && q.hops == p.hops + 1 && q.from == p.id
    && q.id !in Ball(g, seeds, 0)
    && LeastRelation(g, p.id, q.id, q.via)
  }

  ghost predicate Origins(g: View, seeds: set<string>, n: nat, t: Trace)
    requires Shape(t)
  {
    forall k :: 0 <= k < |t.order| ==>
      if t.parent[k] < 0 then SeedOK(g, seeds, t.order[k])
      else StepOK(g, seeds, n, t.order[t.parent[k]], t.order[k])
  }

  /** Queue discipline: siblings by id, families in the order of their parents,
      distances never falling. */
  ghost predicate Ordered(t: Trace)
    requires Shape(t)
  {
    forall j, k :: 0 <= j < k < |t.order| ==>
      && t.order[j].hops <= t.order[k].hops
      && t.parent[j] <= t.parent[k]
      && (t.parent[j] == t.parent[k] ==> StrLess(t.order[j].id, t.order[k].id))
  }

  ghost predicate Expandable(g: View, n: nat, q: Queued) {
    q.id in g.entities && q.hops < n
  }

  /** Nobody earlier could have discovered `order[k]`. */
  ghost predicate Earliest(g: View, n: nat, t: Trace)
    requires Shape(t)
  {
    forall j, k :: 0 <= k < |t.order| && 0 <= j < t.parent[k] && Expandable(g, n, t.order[j])
      ==> !Joined(g, t.order[j].id, t.order[k].id)
  }

  /** The first `popped` nodes have had all their neighbours queued. */
  ghost predicate Expanded(g: View, n: nat, t: Trace, popped: nat)
    requires popped <= |t.order|
  {
    forall j, y :: 0 <= j < popped && Expandable(g, n, t.order[j]) && Joined(g, t.order[j].id, y)
      ==> y in Ids(t.order)
  }

  ghost predicate Discovered(g: View, seeds: set<string>, n: nat, t: Trace, popped: nat)
    ensures Discovered(g, seeds, n, t, popped) ==> Shape(t) && popped <= |t.order|
    ensures Discovered(g, seeds, n, t, popped) ==> forall k :: 0 <= k < |t.order| ==> t.parent[k] < popped
  {
    && Shape(t) && popped <= |t.order|
    && Ball(g, seeds, 0) <= Ids(t.order)
    && (forall k :: 0 <= k < |t.order| ==> t.parent[k] < popped)
    && (forall k :: 0 <= k < |t.order| ==> t.order[k].hops <= if popped == 0 then 0 else t.order[popped - 1].hops + 1)
    && Origins(g, seeds, n, t)
    && Ordered(t)
    && Earliest(g, n, t)
  }

  function Extend(t: Trace, q: Queued, p: int): Trace {
    Trace(t.order + [q], t.parent + [p])
  }

  lemma ExtendOrdered(t: Trace, c: nat, q: Queued)
    requires Shape(t) && Ordered(t) && c < |t.order|
    requires forall k :: 0 <= k < |t.order| ==> t.parent[k] <= c && t.order[k].hops <= q.hops
    requires forall k :: 0 <= k < |t.order| && t.parent[k] == c ==> StrLess(t.order[k].id, q.id)
    requires q.id !in Ids(t.order)
    ensures Shape(Extend(t, q, c)) && Ordered(Extend(t, q, c))
    ensures Ids(Extend(t, q, c).order) == Ids(t.order) + {q.id}
  {
    var u := Extend(t, q, c);
    forall k | 0 <= k < |t.order| ensures t.order[k].id != q.id {
      assert t.order[k].id in Ids(t.order);
    }
    assert Ids(u.order) == Ids(t.order) + {q.id};
  }

  lemma ExtendOrigins(g: View, seeds: set<string>, n: nat, t: Trace, c: nat, q: Queued)
    requires Shape(t) && Origins(g, seeds, n, t) && c < |t.order|
    requires StepOK(g, seeds, n, t.order[c], q)
    requires Shape(Extend(t, q, c))
    ensures Origins(g, seeds, n, Extend(t, q, c))
  {
  }

  lemma ExtendEarliest(g: View, n: nat, t: Trace, c: nat, q: Queued)
    requires Shape(t) && Earliest(g, n, t) && c < |t.order| && Expanded(g, n, t, c)
    requires q.id !in Ids(t.order)
    requires Shape(Extend(t, q, c))
    ensures Earliest(g, n, Extend(t, q, c))
  {
  }

  /** Queueing one more unseen neighbour of the node just popped. */
  lemma ExtendKeeps(g: View, seeds: set<string>, n: nat, t: Trace, c: nat, q: Queued)
    requires Discovered(g, seeds, n, t, c + 1) && Expanded(g, n, t, c)
    requires StepOK(g, seeds, n, t.order[c], q)
    requires q.id !in Ids(t.order)
    requires forall k :: 0 <= k < |t.order| && t.parent[k] == c ==> StrLess(t.order[k].id, q.id)
    ensures Discovered(g, seeds, n, Extend(t, q, c), c + 1)
    ensures Expanded(g, n, Extend(t, q, c), c)
    ensures Ids(Extend(t, q, c).order) == Ids(t.order) + {q.id}
  {
    ExtendOrdered(t, c, q);
    ExtendOrigins(g, seeds, n, t, c, q);
    ExtendEarliest(g, n, t, c, q);
  }

  /** Taking one more node off the queue. */
  lemma PopKeeps(g: View, seeds: set<string>, n: nat, t: Trace, popped: nat)
    requires Discovered(g, seeds, n, t, popped) && popped < |t.order|
    ensures Discovered(g, seeds, n, t, popped + 1)
    ensures t.order[popped].id !in Ids(t.order[..popped])
    ensures forall k :: 0 <= k < |t.order| ==> t.parent[k] < popped
  {
  }

  /** A node that may not be expanded owes no neighbours. */
  lemma SkipExpands(g: View, n: nat, t: Trace, popped: nat)
    requires popped < |t.order| && Expanded(g, n, t, popped) && !Expandable(g, n, t.order[popped])
    ensures Expanded(g, n, t, popped + 1)
  {
  }

  lemma OriginOf(g: View, seeds: set<string>, n: nat, t: Trace, k: nat)
    requires Shape(t) && Origins(g, seeds, n, t) && k < |t.order|
    ensures t.parent[k] < 0 ==> SeedOK(g, seeds, t.order[k])
    ensures t.parent[k] >= 0 ==> StepOK(g, seeds, n, t.order[t.parent[k]], t.order[k])
  {
  }

  // -------------------------------------------------------------------------
  // A finished trace visits exactly the ball, at the exact distances
  // -------------------------------------------------------------------------

  ghost predicate Finished(g: View, seeds: set<string>, n: nat, t: Trace) {
    Discovered(g, seeds, n, t, |t.order|) && Expanded(g, n, t, |t.order|)
  }

  lemma {:induction false} Sound(g: View, seeds: set<string>, n: nat, t: Trace, k: nat)
    requires Finished(g, seeds, n, t) && k < |t.order| && t.order[k].id in g.entities
    ensures t.order[k].hops <= n
    ensures t.order[k].id in Ball(g, seeds, t.order[k].hops)
    decreases k
  {
    hide Ordered, Earliest, Expanded, Ball;
    var p := t.parent[k];
    OriginOf(g, seeds, n, t, k);
    if p >= 0 {
      Sound(g, seeds, n, t, p);
      assert StepOK(g, seeds, n, t.order[p], t.order[k]);
      assert Joined(g, t.order[p].id, t.order[k].id);
      StepOut(g, seeds, t.order[p].hops, t.order[p].id, t.order[k].id);
    }
  }

  lemma {:induction false} Complete(g: View, seeds: set<string>, n: nat, t: Trace, m: nat, x: string) returns (k: nat)
    requires Finished(g, seeds, n, t) && m <= n && x in Ball(g, seeds, m)
    ensures k < |t.order| && t.order[k].id == x && t.order[k].hops <= m
    decreases m
  {
    if m == 0 {
      assert x in Ids(t.order);
      k :| 0 <= k < |t.order| && t.order[k].id == x;
      OriginOf(g, seeds, n, t, k);
    } else if x in Ball(g, seeds, m - 1) {
      k := Complete(g, seeds, n, t, m - 1, x);
    } else {
      var y :| y in Ball(g, seeds, m - 1) && Joined(g, y, x);
      var j := Complete(g, seeds, n, t, m - 1, y);
      BallKnown(g, seeds, m - 1);
      k := DiscoveredBy(g, seeds, n, t, j, x);
    }
  }

  /** A neighbour of an expanded node is queued, at most one step further out, by
      that node or an earlier one. */
  lemma DiscoveredBy(g: View, seeds: set<string>, n: nat, t: Trace, j: nat, x: string) returns (k: nat)
    requires Finished(g, seeds, n, t) && j < |t.order|
    requires Expandable(g, n, t.order[j]) && Joined(g, t.order[j].id, x)
    ensures k < |t.order| && t.order[k].id == x
    ensures t.parent[k] <= j && t.order[k].hops <= t.order[j].hops + 1
  {
    assert x in Ids(t.order);
    k :| 0 <= k < |t.order| && t.order[k].id == x;
    assert t.parent[k] <= j;
    OriginOf(g, seeds, n, t, k);
    HopsAfterParent(t, k, j);
  }

  lemma HopsAfterParent(t: Trace, k: nat, j: nat)
    requires Shape(t) && Ordered(t) && k < |t.order| && t.parent[k] <= j < |t.order|
    ensures t.parent[k] >= 0 ==> t.order[t.parent[k]].hops <= t.order[j].hops
  {
  }

  lemma ExactHops(g: View, seeds: set<string>, n: nat, t: Trace, k: nat)
    requires Finished(g, seeds, n, t) && k < |t.order| && t.order[k].id in g.entities
    ensures t.order[k].id in Ball(g, seeds, n)
    ensures t.order[k].hops == Hops(g, seeds, n, t.order[k].id)
  {
    Sound(g, seeds, n, t, k);
    BallNested(g, seeds, t.order[k].hops, n);
    HopsLeast(g, seeds, n, t.order[k].id, t.order[k].hops);
    var j := Complete(g, seeds, n, t, Hops(g, seeds, n, t.order[k].id), t.order[k].id);
  }

  lemma VisitsBall(g: View, seeds: set<string>, n: nat, t: Trace)
    requires Finished(g, seeds, n, t)
    ensures KnownIds(g, t.order) == Ball(g, seeds, n)
  {
    forall x ensures x in KnownIds(g, t.order) <==> x in Ball(g, seeds, n) {
      if x in KnownIds(g, t.order) {
        var k :| 0 <= k < |t.order| && t.order[k].id == x;
        ExactHops(g, seeds, n, t, k);
      }
      if x in Ball(g, seeds, n) {
        BallKnown(g, seeds, n);
        var k := Complete(g, seeds, n, t, n, x);
        assert t.order[k] in t.order;
      }
    }
  }

  // -------------------------------------------------------------------------
  // Provenance: following parents back yields the least walk
  // -------------------------------------------------------------------------

  ghost function Chain(t: Trace, k: nat): seq<string>
    requires Shape(t) && k < |t.order|
    decreases k
  {
    if t.parent[k] < 0 then [t.order[k].id] else Chain(t, t.parent[k]) + [t.order[k].id]
  }

  lemma {:induction false} ChainIsWalk(g: View, seeds: set<string>, n: nat, t: Trace, k: nat)
    requires Finished(g, seeds, n, t) && k < |t.order| && t.order[k].id in g.entities
    ensures Walk(g, seeds, Chain(t, k))
    ensures |Chain(t, k)| == t.order[k].hops + 1
    ensures Chain(t, k)[t.order[k].hops] == t.order[k].id
    decreases k
  {
    var p := t.parent[k];
    if p >= 0 {
      assert StepOK(g, seeds, n, t.order[p], t.order[k]);
      ChainIsWalk(g, seeds, n, t, p);
      assert Joined(g, t.order[p].id, t.order[k].id);
    } else {
      assert SeedOK(g, seeds, t.order[k]);
    }
  }

  /** Nodes at one distance are queued in the order of their chains. */
  lemma {:induction false} ChainsAscend(g: View, seeds: set<string>, n: nat, t: Trace, j: nat, k: nat)
    requires Finished(g, seeds, n, t) && j < k < |t.order|
    requires t.order[j].id in g.entities && t.order[k].id in g.entities
    requires t.order[j].hops == t.order[k].hops
    ensures PathLess(Chain(t, j), Chain(t, k))
    decreases k
  {
    var p, q := t.parent[j], t.parent[k];
    StrTotal();
    if q < 0 {
      LexAppend(StrLess, [], [], t.order[j].id, t.order[k].id);
      assert [] + [t.order[j].id] == [t.order[j].id] && [] + [t.order[k].id] == [t.order[k].id];
    } else {
      OriginOf(g, seeds, n, t, k);
      OriginOf(g, seeds, n, t, j);
      assert p >= 0;
      ChainIsWalk(g, seeds, n, t, p);
      ChainIsWalk(g, seeds, n, t, q);
      if p < q {
        ChainsAscend(g, seeds, n, t, p, q);
      }
      LexAppend(StrLess, Chain(t, p), Chain(t, q), t.order[j].id, t.order[k].id);
    }
  }

  ghost predicate AtMost(a: seq<string>, b: seq<string>) {
    a == b || PathLess(a, b)
  }

  /** No walk as short as the chain comes before it. */
  lemma {:induction false} ChainLeast(g: View, seeds: set<string>, n: nat, t: Trace, k: nat, w: seq<string>)
    requires Finished(g, seeds, n, t) && k < |t.order| && t.order[k].id in g.entities
    requires Walk(g, seeds, w) && |w| == t.order[k].hops + 1 && w[|w| - 1] == t.order[k].id
    ensures AtMost(Chain(t, k), w)
    decreases |w|
  {
    hide Discovered, Expanded, Walk, Chain, PathLess;
    if |w| == 1 {
      SeedChain(g, seeds, n, t, k);
      assert w == [w[0]];
    } else {
      var v := w[..|w| - 1];
      var j := PenultimateQueued(g, seeds, n, t, k, w);
      ChainLeast(g, seeds, n, t, j, v);
      PrefixDecides(g, seeds, n, t, k, j, v);
      assert w == v + [t.order[k].id];
    }
  }

  lemma SeedChain(g: View, seeds: set<string>, n: nat, t: Trace, k: nat)
    requires Finished(g, seeds, n, t) && k < |t.order| && t.order[k].hops == 0
    ensures Chain(t, k) == [t.order[k].id]
  {
    OriginOf(g, seeds, n, t, k);
  }

  /** The last node before the end of a shortest walk was queued, one step nearer,
      no earlier than the end's parent. */
  lemma PenultimateQueued(g: View, seeds: set<string>, n: nat, t: Trace, k: nat, w: seq<string>) returns (j: nat)
    requires Finished(g, seeds, n, t) && k < |t.order| && t.order[k].id in g.entities
    requires Walk(g, seeds, w) && |w| == t.order[k].hops + 1 && w[|w| - 1] == t.order[k].id && |w| > 1
    ensures Walk(g, seeds, w[..|w| - 1])
    ensures 0 <= t.parent[k] <= j < |t.order| && t.order[j].id == w[|w| - 2]
    ensures t.order[j].id in g.entities && t.order[t.parent[k]].id in g.entities
    ensures t.order[j].hops == t.order[t.parent[k]].hops == |w| - 2
  {
    var v, y := w[..|w| - 1], w[|w| - 2];
    assert Walk(g, seeds, v);
    WalkInBall(g, seeds, v);
    Sound(g, seeds, n, t, k);
    j := Complete(g, seeds, n, t, |v| - 1, y);
    assert Joined(g, y, w[|w| - 1]);
    SameLevelParent(g, seeds, n, t, k, j);
    OriginOf(g, seeds, n, t, k);
  }

  /** The parent is the earliest node one step nearer that is joined to the child. */
  lemma SameLevelParent(g: View, seeds: set<string>, n: nat, t: Trace, k: nat, j: nat)
    requires Finished(g, seeds, n, t) && k < |t.order| && j < |t.order|
    requires 0 < t.order[k].hops <= n && t.order[j].hops < t.order[k].hops
    requires t.order[j].id in g.entities && Joined(g, t.order[j].id, t.order[k].id)
    ensures 0 <= t.parent[k] <= j
    ensures t.order[j].hops == t.order[t.parent[k]].hops == t.order[k].hops - 1
  {
    var m := DiscoveredBy(g, seeds, n, t, j, t.order[k].id);
    assert m == k;
    assert t.parent[k] < 0 ==> SeedOK(g, seeds, t.order[k]);
    assert StepOK(g, seeds, n, t.order[t.parent[k]], t.order[k]);
  }

  lemma PrefixDecides(g: View, seeds: set<string>, n: nat, t: Trace, k: nat, j: nat, v: seq<string>)
    requires Finished(g, seeds, n, t) && k < |t.order| && 0 <= t.parent[k] <= j < |t.order|
    requires t.order[j].id in g.entities && t.order[t.parent[k]].id in g.entities
    requires t.order[j].hops == t.order[t.parent[k]].hops
    requires |v| == t.order[j].hops + 1
    requires AtMost(Chain(t, j), v)
    ensures AtMost(Chain(t, k), v + [t.order[k].id])
  {
    hide Discovered, Expanded, Walk, StrLess;
    var p := t.parent[k];
    StrTotal();
    ChainIsWalk(g, seeds, n, t, p);
    ChainIsWalk(g, seeds, n, t, j);
    if p < j {
      ChainsAscend(g, seeds, n, t, p, j);
      if v != Chain(t, j) {
        LexTransitive(StrLess, Chain(t, p), Chain(t, j), v);
      }
    }
    LexAppend(StrLess, Chain(t, p), v, t.order[k].id, t.order[k].id);
  }

  lemma ChainIsLeastWalk(g: View, seeds: set<string>, n: nat, t: Trace, k: nat)
    requires Finished(g, seeds, n, t) && k < |t.order| && t.order[k].id in g.entities
    ensures LeastWalk(g, seeds, Chain(t, k))
  {
    hide Discovered, Expanded, Ball, Walk, StrLess;
    var c := Chain(t, k);
    ChainIsWalk(g, seeds, n, t, k);
    ExactHops(g, seeds, n, t, k);
    HopsAttained(g, seeds, n, t.order[k].id);
    StrTotal();
    forall q | Walk(g, seeds, q) && |q| == |c| && q[|q| - 1] == c[|c| - 1] ensures !PathLess(q, c) {
      ChainLeast(g, seeds, n, t, k, q);
      LexTrichotomy(StrLess, q, c);
    }
  }

  // -------------------------------------------------------------------------
  // What the traversal reports
  // -------------------------------------------------------------------------

  function Report(g: View, q: Queued): Reached
    requires q.id in g.entities
  {
    var e := g.entities[q.id];
    Reached(q.id, e.typ, e.name, e.criticality, q.hops, q.via, q.from)
  }

  ghost function KnownIds(g: View, order: seq<Queued>): set<string> {
    set q | q in order && q.id in g.entities :: q.id
  }

  /** The records, running total, critical count and furthest distance after
      popping all of `order`. */
  ghost function Records(g: View, order: seq<Queued>): seq<Reached> {
    if order == [] then []
    else
      var q := order[|order| - 1];
      Records(g, order[..|order| - 1]) + if q.id in g.entities then [Report(g, q)] else []
  }

  ghost function Total(g: View, order: seq<Queued>): real {
    if order == [] then 0.0
    else
      var q := order[|order| - 1];
      Total(g, order[..|order| - 1]) + if q.id in g.entities then Share(g.entities[q.id].criticality, q.hops) else 0.0
  }

  ghost function CriticalIds(g: View, order: seq<Queued>): set<string> {
    set x | x in KnownIds(g, order) && g.entities[x].criticality == CRITICAL
  }

  lemma ListedRecord(g: View, seeds: set<string>, n: nat, t: Trace, k: nat)
    requires Finished(g, seeds, n, t) && k < |t.order| && t.order[k].id in g.entities
    ensures Listed(g, seeds, n, Report(g, t.order[k]))
  {
    ExactHops(g, seeds, n, t, k);
    var p := t.parent[k];
    if p >= 0 {
      assert StepOK(g, seeds, n, t.order[p], t.order[k]);
      ChainIsLeastWalk(g, seeds, n, t, k);
      ChainIsWalk(g, seeds, n, t, k);
      ChainIsWalk(g, seeds, n, t, p);
      assert CameFrom(g, seeds, t.order[k].id, t.order[p].id);
    } else {
      assert SeedOK(g, seeds, t.order[k]);
    }
  }

  lemma {:induction false} RecordsCover(g: View, order: seq<Queued>)
    ensures forall e :: e in Records(g, order) <==> exists q :: q in order && q.id in g.entities && e == Report(g, q)
    decreases |order|
  {
    if order != [] {
      var init, last := order[..|order| - 1], order[|order| - 1];
      RecordsCover(g, init);
      assert order == init + [last];
    }
  }

  lemma {:induction false} RecordsDistinct(g: View, order: seq<Queued>)
    requires forall j, k :: 0 <= j < k < |order| ==> order[j].id != order[k].id
    ensures Distinct(Records(g, order))
    decreases |order|
  {
    if order != [] {
      var init, last := order[..|order| - 1], order[|order| - 1];
      RecordsDistinct(g, init);
      RecordsCover(g, init);
      forall e | e in Records(g, init) ensures e.id != last.id {
        var q :| q in init && q.id in g.entities && e == Report(g, q);
      }
    }
  }

  lemma RecordIds(g: View, order: seq<Queued>)
    ensures IDs(Records(g, order)) == KnownIds(g, order)
  {
    RecordsCover(g, order);
    forall x ensures x in IDs(Records(g, order)) <==> x in KnownIds(g, order) {
      if x in KnownIds(g, order) {
        var q :| q in order && q.id in g.entities && q.id == x;
        assert Report(g, q) in Records(g, order);
      }
    }
  }

  lemma {:induction false} TotalIsSum(g: View, seeds: set<string>, n: nat, t: Trace, m: nat)
    requires Finished(g, seeds, n, t) && m <= |t.order|
    ensures Total(g, t.order[..m]) == Sum(KnownIds(g, t.order[..m]), Contribution(g, seeds, n))
    decreases m
  {
    hide Finished, Ball, Hops, KnownIds, Sum, Share;
    if m == 0 {
      NothingKnown(g, t.order, Contribution(g, seeds, n));
    } else {
      TotalIsSum(g, seeds, n, t, m - 1);
      assert t.order[..m][..m - 1] == t.order[..m - 1];
      OneMoreKnown(g, seeds, n, t, m - 1);
      if t.order[m - 1].id in g.entities {
        ExactHops(g, seeds, n, t, m - 1);
        SumRemove(KnownIds(g, t.order[..m]), Contribution(g, seeds, n), t.order[m - 1].id);
      }
    }
  }

  lemma NothingKnown(g: View, order: seq<Queued>, f: string -> real)
    ensures KnownIds(g, order[..0]) == {} && Sum({}, f) == 0.0
  {
  }

  lemma OneMoreKnown(g: View, seeds: set<string>, n: nat, t: Trace, k: nat)
    requires Finished(g, seeds, n, t) && k < |t.order|
    ensures t.order[k].id !in g.entities ==> KnownIds(g, t.order[..k + 1]) == KnownIds(g, t.order[..k])
    ensures t.order[k].id in g.entities ==>
      && t.order[k].id in KnownIds(g, t.order[..k + 1])
      && KnownIds(g, t.order[..k + 1]) - {t.order[k].id} == KnownIds(g, t.order[..k])
  {
    hide Origins, Ordered, Earliest, Expanded;
    var init, q := t.order[..k], t.order[k];
    assert t.order[..k + 1] == init + [q];
    KnownSnoc(g, init, q);
    assert forall x :: x in init ==> x.id != q.id;
  }

  lemma KnownSnoc(g: View, order: seq<Queued>, q: Queued)
    ensures KnownIds(g, order + [q]) == KnownIds(g, order) + if q.id in g.entities then {q.id} else {}
  {
    assert forall x :: x in order + [q] <==> x in order || x == q;
  }

  /** A finished traversal has every ingredient of the specified answer. */
  lemma FinishedReports(g: View, seeds: set<string>, n: nat, t: Trace)
    requires Finished(g, seeds, n, t)
    ensures forall e :: e in Records(g, t.order) ==> Listed(g, seeds, n, e)
    ensures IDs(Records(g, t.order)) == Ball(g, seeds, n)
    ensures Total(g, t.order) == Weighted(g, seeds, n)
    ensures CriticalIds(g, t.order) == CriticalReach(g, seeds, n)
    ensures Distinct(Records(g, t.order))
  {
    RecordsDistinct(g, t.order);
    RecordsCover(g, t.order);
    RecordIds(g, t.order);
    forall e | e in Records(g, t.order) ensures Listed(g, seeds, n, e) {
      var q :| q in t.order && q.id in g.entities && e == Report(g, q);
      var k :| 0 <= k < |t.order| && t.order[k] == q;
      ListedRecord(g, seeds, n, t, k);
    }
    VisitsBall(g, seeds, n, t);
    TotalIsSum(g, seeds, n, t, |t.order|);
    assert t.order[..|t.order|] == t.order;
  }
}

/** The in-memory Security Graph: nodes and edges as shared mutable records, edges
    reachable through two indexes, and the bounded walk over them. */
module Graph {
  import opened Entity
  import opened GraphView
  import opened Order
  import opened Reach
  import opened BlastRadii
  import opened BlastSpec
  import opened BfsTrace
  import opened Scale

  class Node {
    const id: string
    const typ: string
    const key: string
    var name: string
    var criticality: string
    var attributes: map<string, string>
    var firstSeen: int
    var lastSeen: int
    var observed: bool

    constructor (e: EntityVal)
      ensures Val() == e
    {
      id, typ, key := e.id, e.typ, e.key;
      name, criticality, attributes := e.name, e.criticality, e.attributes;
      firstSeen, lastSeen, observed := e.firstSeen, e.lastSeen, e.observed;
    }

    /** A later observation of the same entity, folded in field by field. */
    method Absorb(e: EntityVal)
      modifies this
      ensures Val() == Merged(old(Val()), e)
    {
      if e.name != "" {
        name := e.name;
      }
      if Rank(e.criticality) > Rank(criticality) {
        criticality := e.criticality;
      }
      if e.observed {
        observed := true;
      }
      attributes := attributes + e.attributes;
      if e.firstSeen != ZERO_TIME && (firstSeen == ZERO_TIME || e.firstSeen < firstSeen) {
        firstSeen := e.firstSeen;
      }
      if e.lastSeen > lastSeen {
        lastSeen := e.lastSeen;
      }
    }

    function Val(): (v: EntityVal)
      reads this
      ensures v.id == id
    {
      EntityVal(id, typ, key, name, criticality, attributes, firstSeen, lastSeen, observed)
    }
  }

  class Edge {
    const name: EdgeName
    var firstSeen: int
    var lastSeen: int
    var eventIDs: seq<string>

    constructor (n: EdgeName, at: int)
      ensures name == n && Val() == EdgeVal(at, at, [])
    {
      name, firstSeen, lastSeen, eventIDs := n, at, at, [];
    }

    method Touch(at: int, eventID: string)
      modifies this
      ensures Val() == Touched(old(Val()), at, eventID)
    {
      if at < firstSeen || firstSeen == ZERO_TIME {
        firstSeen := at;
      }
      if at > lastSeen {
        lastSeen := at;
      }
      if eventID != "" && |eventIDs| < MAX_EDGE_EVIDENCE && eventID !in eventIDs {
        eventIDs := eventIDs + [eventID];
      }
    }

    function Val(): EdgeVal
      reads this
    {
      EdgeVal(firstSeen, lastSeen, eventIDs)
    }
  }

  datatype EdgeKey = EdgeKey(peer: string, relation: string)

  type Index = map<string, map<EdgeKey, Edge>>

  predicate Has(index: Index, end: string, k: EdgeKey) {
    end in index && k in index[end]
  }

  /** The bucket of one end; a missing bucket reads as empty. */
  function Bucket(index: Index, end: string): map<EdgeKey, Edge> {
    if end in index then index[end] else map[]
  }

  predicate KeyLess(a: EdgeKey, b: EdgeKey) {
    if a.peer != b.peer then StrLess(a.peer, b.peer) else StrLess(a.relation, b.relation)
  }

  lemma KeyWeakOrder()
    ensures WeakOrder(KeyLess)
  {
    StrTotal();
    forall a, b | KeyLess(a, b) ensures !KeyLess(b, a) {
      StrStrict(a.peer, b.peer);
      StrStrict(a.relation, b.relation);
    }
    forall a, b, c | !KeyLess(b, a) && !KeyLess(c, b) ensures !KeyLess(c, a) {
      StrStrict(a.peer, b.peer);
      StrStrict(b.peer, c.peer);
      assert !StrLess(b.peer, a.peer) && !StrLess(c.peer, b.peer) ==> !StrLess(c.peer, a.peer);
      assert !StrLess(b.relation, a.relation) && !StrLess(c.relation, b.relation) ==> !StrLess(c.relation, a.relation);
    }
  }

  predicate QueuedLess(a: Queued, b: Queued) {
    StrLess(a.id, b.id)
  }

  lemma QueuedWeakOrder()
    ensures WeakOrder(QueuedLess)
  {
    StrTotal();
    forall a, b, c | !QueuedLess(b, a) && !QueuedLess(c, b) ensures !QueuedLess(c, a) {
      assert !StrLess(b.id, a.id) && !StrLess(c.id, b.id) ==> !StrLess(c.id, a.id);
    }
  }

  /** How many edges join a node to a peer under a relation: one for each direction. */
  function Occurrences(g: View, id: string, k: EdgeKey): nat {
    (if EdgeName(id, k.peer, k.relation) in g.edges then 1 else 0)
    + (if EdgeName(k.peer, id, k.relation) in g.edges then 1 else 0)
  }

  class Graph {
    var entities: map<string, Node>
    var out: Index
    var in_: Index
    // The one edge set both indexes describe.
    ghost var edges: map<EdgeName, Edge>

    ghost function Nodes(): map<string, EntityVal>
      reads this`entities, entities.Values
    {
      map id | id in entities :: entities[id].Val()
    }

    ghost function Links(): map<EdgeName, EdgeVal>
      reads this`edges, edges.Values
    {
      map n | n in edges :: edges[n].Val()
    }

    ghost function Content(): View
      reads this`entities, this`edges, entities.Values, edges.Values
    {
      View(Nodes(), Links())
    }

    ghost function Repr(): set<object>
      reads this`entities, this`edges
    {
      {this} + (set o: object | o in entities.Values) + (set o: object | o in edges.Values)
    }

    lemma PartsExist()
      ensures forall o :: o in Repr() ==> allocated(o)
    {
    }

    /** `out` files each edge under its source, `in_` under its destination: the
        same record, found from either end. */
    ghost predicate Mirrored()
      reads this`out, this`in_, this`edges
    {
      && (forall a, k :: Has(out, a, k) <==> EdgeName(a, k.peer, k.relation) in edges)
      && (forall b, k :: Has(in_, b, k) <==> EdgeName(k.peer, b, k.relation) in edges)
      && (forall a, k :: Has(out, a, k) ==> out[a][k] == edges[EdgeName(a, k.peer, k.relation)])
      && (forall b, k :: Has(in_, b, k) ==> in_[b][k] == edges[EdgeName(k.peer, b, k.relation)])
    }

    ghost predicate Named()
      reads this`entities, this`edges
    {
      && (forall id :: id in entities ==> entities[id].id == id)
      && (forall n :: n in edges ==> edges[n].name == n)
    }

    ghost predicate Valid()
      reads this
    {
      Named() && Mirrored()
    }

    constructor ()
      ensures Valid() && Content() == EMPTY && fresh(Repr())
    {
      entities, out, in_, edges := map[], map[], map[], map[];
    }

    method UpsertEntity(e: EntityVal) returns (node: Node)
      requires Valid()
      modifies this`entities, entities.Values
      ensures Valid() && fresh(Repr() - old(Repr()))
      ensures Content() == WithEntity(old(Content()), e)
      ensures edges == old(edges)
      ensures node.id in entities && entities[node.id] == node
    {
      hide Mirrored, Merged, Completed, Node.Val;
      var c := Completed(e);
      if c.id !in entities {
        node := new Node(c);
        entities := entities[c.id := node];
      } else {
        node := entities[c.id];
        node.Absorb(c);
      }
      ghost var was := old(Nodes());
      assert Nodes()[c.id] == if c.id in was then Merged(was[c.id], c) else c;
      assert Nodes() == was[c.id := Nodes()[c.id]];
      assert Links() == old(Links());
    }

    /** Files a new edge under both ends. */
    method File(edge: Edge)
      requires Mirrored() && edge.name !in edges
      modifies this`out, this`in_, this`edges
      ensures Mirrored() && edges == old(edges)[edge.name := edge]
    {
      var n := edge.name;
      out := out[n.from := Bucket(out, n.from)[EdgeKey(n.to, n.relation) := edge]];
      in_ := in_[n.to := Bucket(in_, n.to)[EdgeKey(n.from, n.relation) := edge]];
      edges := edges[n := edge];
    }

    /** The edge named `n`, filed under both ends if it is new. */
    method FindOrFile(n: EdgeName, at: int) returns (edge: Edge)
      requires Mirrored()
      modifies this`out, this`in_, this`edges
      ensures Mirrored()
      ensures n in old(edges) ==> edge == old(edges)[n] && edges == old(edges)
      ensures n !in old(edges) ==>
        fresh(edge) && edge.name == n && edge.Val() == EdgeVal(at, at, []) && edges == old(edges)[n := edge]
    {
      var bucket := Bucket(out, n.from);
      var outKey := EdgeKey(n.to, n.relation);
      if outKey !in bucket {
        assert !Has(out, n.from, outKey);
        edge := new Edge(n, at);
        File(edge);
      } else {
        assert Has(out, n.from, outKey);
        edge := bucket[outKey];
      }
    }

    method UpsertEdge(n: EdgeName, at: int, eventID: string)
      requires Valid()
      modifies this`out, this`in_, this`edges, edges.Values
      ensures Valid() && fresh(Repr() - old(Repr()))
      ensures Content() == WithEdge(old(Content()), n, at, eventID)
      ensures entities == old(entities)
    {
      if Degenerate(n) {
        return;
      }
      var edge := FindOrFile(n, at);
      edge.Touch(at, eventID);
      ghost var was := old(Links());
      assert Links()[n] == Touched(if n in was then was[n] else EdgeVal(at, at, []), at, eventID);
      assert Links() == was[n := Links()[n]];
      assert Nodes() == old(Nodes());
    }

    /** The keys of a bucket in whatever order the runtime ranges over them. */
    static method Keys(bucket: map<EdgeKey, Edge>) returns (ks: seq<EdgeKey>)
      ensures Distinct(ks) && forall k :: k in ks <==> k in bucket
    {
      ks := [];
      var rest := bucket.Keys;
      while rest != {}
        invariant rest <= bucket.Keys
        invariant forall k :: k in ks <==> k in bucket.Keys - rest
        invariant Distinct(ks)
      {
        var k :| k in rest;
        assert k !in ks;
        ks, rest := ks + [k], rest - {k};
      }
    }

    /** One step for every edge touching the node, in either direction. */
    method NeighbourSteps(id: string) returns (steps: seq<EdgeKey>)
      requires Valid()
      ensures forall k :: k in steps <==> JoinedBy(Content(), id, k.peer, k.relation)
      ensures forall k :: multiset(steps)[k] == Occurrences(Content(), id, k)
      ensures NoInversion(KeyLess, steps)
    {
      var outgoing := Keys(Bucket(out, id));
      var incoming := Keys(Bucket(in_, id));
      KeyWeakOrder();
      DistinctCounts(outgoing);
      DistinctCounts(incoming);
      steps := SortSlice(outgoing + incoming, KeyLess);
      forall k ensures k in steps <==> JoinedBy(Content(), id, k.peer, k.relation) {
        assert k in outgoing <==> Has(out, id, k);
        assert k in incoming <==> Has(in_, id, k);
      }
      forall k ensures multiset(steps)[k] == Occurrences(Content(), id, k) {
        assert k in outgoing <==> Has(out, id, k);
        assert k in incoming <==> Has(in_, id, k);
        assert multiset(outgoing + incoming)[k] == multiset(outgoing)[k] + multiset(incoming)[k];
        assert (k in outgoing <==> multiset(outgoing)[k] > 0) && (k in incoming <==> multiset(incoming)[k] > 0);
      }
    }

    lemma NodeKeys()
      ensures Content().entities.Keys == entities.Keys
    {
    }

    lemma NodeAt(id: string)
      requires Valid() && id in entities
      ensures entities[id].id == id
      ensures id in Content().entities && Content().entities[id] == entities[id].Val()
    {
    }

    /** The walk's starting point: each known seed once, in id order. */
    method StartQueue(seeds: seq<string>, ghost n: nat)
      returns (visited: map<string, int>, queue: seq<Queued>, ghost t: Trace)
      requires Valid()
      ensures Discovered(Content(), Elements(seeds), n, t, 0) && Expanded(Content(), n, t, 0)
      ensures Ids(t.order) == Ball(Content(), Elements(seeds), 0)
      ensures queue == t.order && visited.Keys == Ids(t.order)
    {
      visited, queue := map[], [];
      for i := 0 to |seeds|
        invariant visited.Keys == Ids(queue)
        invariant forall x :: x in Ids(queue) <==> x in entities && x in seeds[..i]
        invariant forall q :: q in queue ==> q == Queued(q.id, 0, "", "")
        invariant Distinct(queue)
      {
        assert seeds[..i + 1] == seeds[..i] + [seeds[i]];
        if seeds[i] in entities && seeds[i] !in visited {
          assert forall q :: q in queue ==> q.id in Ids(queue);
          visited := visited[seeds[i] := 0];
          queue := queue + [Queued(seeds[i], 0, "", "")];
          assert Ids(queue) == Ids(queue[..|queue| - 1]) + {seeds[i]};
        }
      }
      assert seeds[..|seeds|] == seeds;
      ghost var unsorted := queue;
      QueuedWeakOrder();
      queue := SortSlice(queue, QueuedLess);
      assert Ids(queue) == Ids(unsorted);
      assert Ids(queue) == Ball(Content(), Elements(seeds), 0);
      DistinctPermutation(unsorted, queue);
      t := Trace(queue, seq(|queue|, i => -1));
      SeedTrace(Content(), Elements(seeds), n, queue);
    }

    /** Queues the unseen neighbours of the node just taken off the queue. */
    method QueueNeighbours(cur: Queued, visited: map<string, int>, queue: seq<Queued>,
                           ghost seeds: set<string>, ghost n: nat, ghost t: Trace, ghost c: nat)
      returns (visited': map<string, int>, queue': seq<Queued>, ghost t': Trace)
      requires Valid()
      requires Discovered(Content(), seeds, n, t, c + 1) && Expanded(Content(), n, t, c)
      requires cur == t.order[c] && Expandable(Content(), n, cur)
      requires queue == t.order[c + 1..] && visited.Keys == Ids(t.order)
      requires forall k :: 0 <= k < |t.order| ==> t.parent[k] < c
      ensures Discovered(Content(), seeds, n, t', c + 1) && Expanded(Content(), n, t', c + 1)
      ensures t.order <= t'.order
      ensures queue' == t'.order[c + 1..] && visited'.Keys == Ids(t'.order)
      ensures Ids(t'.order) <= Ids(t.order) + Neighbours(Content(), cur.id)
      ensures t' == t || visited.Keys < visited'.Keys
    {
      hide Discovered, Expanded, Joined, JoinedBy, Neighbours, NoInversion, Valid, Content, Sweep, Ids;
      ghost var g := Content();
      var next := NeighbourSteps(cur.id);
      visited', queue', t' := visited, queue, t;
      SweepStarts(g, seeds, n, t, c, next);
      for s := 0 to |next|
        invariant Sweep(g, seeds, n, t', c, next, s)
        invariant t.order <= t'.order
        invariant queue' == t'.order[c + 1..] && visited'.Keys == Ids(t'.order)
        invariant visited'.Keys <= visited.Keys + Neighbours(g, cur.id)
        invariant t' == t || visited.Keys < visited'.Keys
      {
        if next[s].peer !in visited' {
          var q := Queued(next[s].peer, cur.hops + 1, next[s].relation, cur.id);
          SweepQueues(g, seeds, n, t', c, next, s, q);
          visited' := visited'[q.id := q.hops];
          queue' := queue' + [q];
          t' := Extend(t', q, c);
        } else {
          SweepSkips(g, seeds, n, t', c, next, s);
        }
      }
      SweepEnds(g, seeds, n, t', c, next);
    }

    /** Bounded breadth-first walk from `seeds`, scored by what it reaches. */
    method EstimateBlastRadius(curve: Curve, seeds: seq<string>, maxHops: int) returns (r: BlastRadius)
      requires Valid()
      ensures IsBlast(curve, Content(), Elements(seeds), HopLimit(maxHops), r)
    {
      hide Discovered, Expanded, Shape, Records, Total, CriticalIds, Mirrored, Ids, Universe, IsBlast,
        Furthest, NoInversion, Valid, Named, Nodes, Links;
      var n: nat := HopLimit(maxHops);
      ghost var g, known := Content(), Elements(seeds);
      var visited, queue, t := StartQueue(seeds, n);
      BallInUniverse(g, known);
      var reachable, weighted, criticalCount, observedMaxHops := [], 0.0, 0, 0;
      ghost var popped := 0;
      NothingReported(g, t.order);
      while queue != []
        invariant Discovered(g, known, n, t, popped) && Expanded(g, n, t, popped)
        invariant queue == t.order[popped..] && visited.Keys == Ids(t.order) <= Universe(g)
        invariant reachable == Records(g, t.order[..popped])
        invariant weighted == Total(g, t.order[..popped])
        invariant criticalCount == |CriticalIds(g, t.order[..popped])|
        invariant Furthest(reachable, observedMaxHops)
        decreases Universe(g) - visited.Keys, |queue|
      {
        var cur := queue[0];
        queue := queue[1..];
        assert cur == t.order[popped];
        PopKeeps(g, known, n, t, popped);
        PopReports(g, t.order, popped);
        PopCritical(g, t.order, popped);
        assert cur.id in entities <==> cur.id in g.entities by { NodeKeys(); }
        if cur.id in entities {
          var ent := entities[cur.id];
          NodeAt(cur.id);
          weighted := weighted + Share(ent.criticality, cur.hops);
          if ent.criticality == CRITICAL {
            criticalCount := criticalCount + 1;
          }
          var entry := Reached(ent.id, ent.typ, ent.name, ent.criticality, cur.hops, cur.via, cur.from);
          FurthestAfter(reachable, observedMaxHops, entry);
          if cur.hops > observedMaxHops {
            observedMaxHops := cur.hops;
          }
          reachable := reachable + [entry];
        }
        if cur.id in entities && cur.hops < n {
          ghost var before := t.order;
          NeighboursWithin(g, cur.id);
          visited, queue, t := QueueNeighbours(cur, visited, queue, known, n, t, popped);
          assert t.order[..popped + 1] == before[..popped + 1];
        } else {
          SkipExpands(g, n, t, popped);
        }
        popped := popped + 1;
      }
      assert popped == |t.order| && t.order[..popped] == t.order;
      ghost var unsorted := reachable;
      ReachedWeakOrder();
      reachable := SortSlice(reachable, ReachedLess);
      r := BlastRadius(ScoreOfWeight(curve, weighted), observedMaxHops, criticalCount, reachable);
      FinishedAnswers(curve, g, known, n, t, unsorted, r);
    }
  }

  /** A finished traversal, sorted and scored, is the specified estimate. */
  lemma FinishedAnswers(curve: Curve, g: View, seeds: set<string>, n: nat, t: Trace, unsorted: seq<Reached>, r: BlastRadius)
    requires Finished(g, seeds, n, t)
    requires unsorted == Records(g, t.order)
    requires multiset(r.reachable) == multiset(unsorted) && NoInversion(ReachedLess, r.reachable)
    requires r.score == ScoreOfWeight(curve, Total(g, t.order))
    requires r.criticalAssets == |CriticalIds(g, t.order)|
    requires Furthest(unsorted, r.maxHops)
    ensures IsBlast(curve, g, seeds, n, r)
  {
    hide Finished, Listed, Records, Total, CriticalIds, Ball, Weighted, CriticalReach, ReachedLess;
    FinishedReports(g, seeds, n, t);
    ReportSorted(g, seeds, n, unsorted, r.reachable);
    if r.reachable != [] {
      assert r.reachable[0] in unsorted;
    }
  }

  ghost predicate Furthest(es: seq<Reached>, h: int) {
    && (forall e :: e in es ==> e.hops <= h)
    && (if es == [] then h == 0 else exists e :: e in es && e.hops == h)
  }

  lemma FurthestAfter(es: seq<Reached>, h: int, e: Reached)
    requires Furthest(es, h) && e.hops >= 0
    ensures Furthest(es + [e], if e.hops > h then e.hops else h)
  {
    assert e in es + [e];
    if es != [] && e.hops <= h {
      var f :| f in es && f.hops == h;
      assert f in es + [e];
    }
  }

  lemma NothingReported(g: View, order: seq<Queued>)
    ensures Records(g, order[..0]) == [] && Total(g, order[..0]) == 0.0
    ensures CriticalIds(g, order[..0]) == {}
    ensures Furthest([], 0)
  {
  }

  lemma BallInUniverse(g: View, seeds: set<string>)
    ensures Ball(g, seeds, 0) <= Universe(g)
  {
  }

  ghost function Universe(g: View): set<string> {
    g.entities.Keys + (set m | m in g.edges :: m.from) + (set m | m in g.edges :: m.to)
  }

  ghost function Neighbours(g: View, id: string): set<string> {
    set y | y in Universe(g) && Joined(g, id, y)
  }

  lemma NeighboursWithin(g: View, id: string)
    ensures Neighbours(g, id) <= Universe(g)
  {
  }

  lemma SeedTrace(g: View, seeds: set<string>, n: nat, queue: seq<Queued>)
    requires forall q :: q in queue ==> q == Queued(q.id, 0, "", "")
    requires Ids(queue) == Ball(g, seeds, 0)
    requires Distinct(queue) && NoInversion(QueuedLess, queue)
    ensures Discovered(g, seeds, n, Trace(queue, seq(|queue|, i => -1)), 0)
  {
    var t := Trace(queue, seq(|queue|, i => -1));
    forall j, k | 0 <= j < k < |queue|
      ensures queue[j].id != queue[k].id && StrLess(queue[j].id, queue[k].id)
    {
      assert queue[j] in queue && queue[k] in queue && queue[j] != queue[k];
      assert !QueuedLess(queue[k], queue[j]);
      StrStrict(queue[j].id, queue[k].id);
    }
    forall k | 0 <= k < |queue| ensures SeedOK(g, seeds, queue[k]) {
      assert queue[k] in queue && queue[k].id in Ids(queue);
    }
    assert Shape(t) && Origins(g, seeds, n, t) && Ordered(t) && Earliest(g, n, t);
  }

  /** Halfway through the neighbours of `order[c]`: the first `s` steps of the
      sorted list are queued, and they are the only children `c` has. */
  ghost predicate Sweep(g: View, seeds: set<string>, n: nat, t: Trace, c: nat, next: seq<EdgeKey>, s: nat)
    ensures Sweep(g, seeds, n, t, c, next, s) ==> Discovered(g, seeds, n, t, c + 1) && Expanded(g, n, t, c)
  {
    && Discovered(g, seeds, n, t, c + 1) && Expanded(g, n, t, c)
    && Expandable(g, n, t.order[c])
    && (forall k :: k in next <==> JoinedBy(g, t.order[c].id, k.peer, k.relation))
    && NoInversion(KeyLess, next) && s <= |next|
    && (forall i :: 0 <= i < s ==> next[i].peer in Ids(t.order))
    && (forall k :: 0 <= k < |t.order| && t.parent[k] == c ==> exists i :: 0 <= i < s && next[i].peer == t.order[k].id)
  }

  lemma SweepStarts(g: View, seeds: set<string>, n: nat, t: Trace, c: nat, next: seq<EdgeKey>)
    requires Discovered(g, seeds, n, t, c + 1) && Expanded(g, n, t, c)
    requires Expandable(g, n, t.order[c])
    requires forall k :: k in next <==> JoinedBy(g, t.order[c].id, k.peer, k.relation)
    requires NoInversion(KeyLess, next)
    requires forall k :: 0 <= k < |t.order| ==> t.parent[k] < c
    ensures Sweep(g, seeds, n, t, c, next, 0)
  {
    hide Discovered, Expanded, NoInversion;
  }

  lemma SweepSkips(g: View, seeds: set<string>, n: nat, t: Trace, c: nat, next: seq<EdgeKey>, s: nat)
    requires Sweep(g, seeds, n, t, c, next, s) && s < |next| && next[s].peer in Ids(t.order)
    ensures Sweep(g, seeds, n, t, c, next, s + 1)
  {
    hide Discovered, Expanded, NoInversion;
  }

  /** In the sorted list the first step to an unseen peer carries the least
      relation, and comes after every peer already queued. */
  lemma SweepQueues(g: View, seeds: set<string>, n: nat, t: Trace, c: nat, next: seq<EdgeKey>, s: nat, q: Queued)
    requires Sweep(g, seeds, n, t, c, next, s) && s < |next|
    requires q == Queued(next[s].peer, t.order[c].hops + 1, next[s].relation, t.order[c].id)
    requires q.id !in Ids(t.order)
    ensures Sweep(g, seeds, n, Extend(t, q, c), c, next, s + 1)
    ensures Ids(Extend(t, q, c).order) == Ids(t.order) + {q.id}
    ensures q.id in Neighbours(g, t.order[c].id)
  {
    FirstSighting(g, seeds, n, t, c, next, s, q);
    ExtendKeeps(g, seeds, n, t, c, q);
    SweepGrows(g, seeds, n, t, c, next, s, q);
  }

  lemma SweepGrows(g: View, seeds: set<string>, n: nat, t: Trace, c: nat, next: seq<EdgeKey>, s: nat, q: Queued)
    requires Sweep(g, seeds, n, t, c, next, s) && s < |next| && q.id == next[s].peer
    requires Discovered(g, seeds, n, Extend(t, q, c), c + 1) && Expanded(g, n, Extend(t, q, c), c)
    requires Ids(Extend(t, q, c).order) == Ids(t.order) + {q.id}
    ensures Sweep(g, seeds, n, Extend(t, q, c), c, next, s + 1)
  {
    hide Discovered, Expanded, NoInversion;
    var u := Extend(t, q, c);
    forall k | 0 <= k < |u.order| && u.parent[k] == c
      ensures exists i :: 0 <= i < s + 1 && next[i].peer == u.order[k].id
    {
      if k < |t.order| {
        var i :| 0 <= i < s && next[i].peer == t.order[k].id;
        assert next[i].peer == u.order[k].id;
      } else {
        assert next[s].peer == u.order[k].id;
      }
    }
  }

  lemma SeedsQueued(g: View, seeds: set<string>, n: nat, t: Trace, popped: nat)
    requires Discovered(g, seeds, n, t, popped)
    ensures Ball(g, seeds, 0) <= Ids(t.order)
  {
  }

  lemma FirstSighting(g: View, seeds: set<string>, n: nat, t: Trace, c: nat, next: seq<EdgeKey>, s: nat, q: Queued)
    requires Sweep(g, seeds, n, t, c, next, s) && s < |next|
    requires q == Queued(next[s].peer, t.order[c].hops + 1, next[s].relation, t.order[c].id)
    requires q.id !in Ids(t.order)
    ensures StepOK(g, seeds, n, t.order[c], q)
    ensures forall k :: 0 <= k < |t.order| && t.parent[k] == c ==> StrLess(t.order[k].id, q.id)
    ensures q.id in Neighbours(g, t.order[c].id)
  {
    hide Discovered, Expanded, Ids, Ball;
    SeedsQueued(g, seeds, n, t, c + 1);
    assert next[s] in next;
    forall r | JoinedBy(g, t.order[c].id, q.id, r) ensures !StrLess(r, q.via) {
      assert EdgeKey(q.id, r) in next;
      var i :| 0 <= i < |next| && next[i] == EdgeKey(q.id, r);
      assert i >= s;
      StrStrict(q.via, r);
    }
    forall k | 0 <= k < |t.order| && t.parent[k] == c ensures StrLess(t.order[k].id, q.id) {
      var i :| 0 <= i < s && next[i].peer == t.order[k].id;
      assert next[i].peer in Ids(t.order) && !KeyLess(next[s], next[i]);
      StrStrict(next[i].peer, q.id);
    }
    JoinedInUniverse(g, t.order[c].id, q.id, q.via);
  }

  lemma SweepEnds(g: View, seeds: set<string>, n: nat, t: Trace, c: nat, next: seq<EdgeKey>)
    requires Sweep(g, seeds, n, t, c, next, |next|)
    ensures Expanded(g, n, t, c + 1)
  {
    hide Discovered, NoInversion;
    forall y | Joined(g, t.order[c].id, y) ensures y in Ids(t.order) {
      var relation :| JoinedBy(g, t.order[c].id, y, relation);
      assert EdgeKey(y, relation) in next;
    }
  }

  lemma JoinedInUniverse(g: View, a: string, b: string, relation: string)
    requires JoinedBy(g, a, b, relation)
    ensures b in Neighbours(g, a)
  {
    if EdgeName(a, b, relation) in g.edges {
      assert EdgeName(a, b, relation).to == b;
    } else {
      assert EdgeName(b, a, relation).from == b;
    }
  }

  /** What taking one more node off the queue adds to each running result. */
  lemma PopReports(g: View, order: seq<Queued>, k: nat)
    requires k < |order|
    ensures Records(g, order[..k + 1]) == Records(g, order[..k]) + (if order[k].id in g.entities then [Report(g, order[k])] else [])
    ensures Total(g, order[..k + 1]) == Total(g, order[..k])
      + (if order[k].id in g.entities then Share(g.entities[order[k].id].criticality, order[k].hops) else 0.0)
  {
    assert order[..k + 1][..k] == order[..k];
  }

  lemma PopCritical(g: View, order: seq<Queued>, k: nat)
    requires k < |order| && order[k].id !in Ids(order[..k])
    ensures |CriticalIds(g, order[..k + 1])| == |CriticalIds(g, order[..k])|
      + (if order[k].id in g.entities && g.entities[order[k].id].criticality == CRITICAL then 1 else 0)
  {
    var init, q := order[..k], order[k];
    assert order[..k + 1] == init + [q];
    assert q.id !in KnownIds(g, init);
    assert forall x :: x in init + [q] <==> x in init || x == q;
    if q.id in g.entities && g.entities[q.id].criticality == CRITICAL {
      assert CriticalIds(g, init + [q]) == CriticalIds(g, init) + {q.id};
    } else {
      assert CriticalIds(g, init + [q]) == CriticalIds(g, init);
    }
  }

  lemma ReportSorted(g: View, seeds: set<string>, n: nat, s: seq<Reached>, r: seq<Reached>)
    requires forall e :: e in s ==> Listed(g, seeds, n, e)
    requires Distinct(s) && multiset(r) == multiset(s) && NoInversion(ReachedLess, r)
    ensures Ascending(ReachedLess, r)
    ensures IDs(r) == IDs(s) && |r| == |s|
    ensures forall e :: e in r <==> e in s
  {
    SameElements(r, s);
    DistinctPermutation(s, r);
    forall i, j | 0 <= i < j < |r| ensures ReachedLess(r[i], r[j]) {
      assert r[i] in r && r[j] in r;
      StrStrict(r[i].id, r[j].id);
      if r[i].id == r[j].id {
        ListedUnique(g, seeds, n, r[i], r[j]);
      }
    }
  }
}

/** Merging a declared asset inventory, stopping at the first bad reference. */
module Inventory {
  import opened Entity
  import opened GraphView
  import opened Graph
  import opened Projector

  datatype InventoryEntity = InventoryEntity(typ: string, key: string, name: string, criticality: string, attributes: map<string, string>)

  datatype InventoryEdge = InventoryEdge(from: string, to: string, relation: string)

  datatype Inventory = Inventory(entities: seq<InventoryEntity>, edges: seq<InventoryEdge>)

  datatype Outcome = Applied | BadEntity(index: nat) | BadEdge(index: nat)

  predicate EntityOK(e: InventoryEntity) {
    ValidType(e.typ) && e.key != ""
  }

  ghost function Declared(es: seq<InventoryEntity>): set<string> {
    set e | e in es :: EntityID(e.typ, e.key)
  }

  predicate EdgeOK(ids: set<string>, e: InventoryEdge) {
    e.from in ids && e.to in ids && e.relation != ""
  }

  function DeclaredEntity(e: InventoryEntity, at: int): Upsert {
    PutEntity(EntityVal(EntityID(e.typ, e.key), e.typ, e.key, e.name, e.criticality, e.attributes, at, at, false))
  }

  function DeclaredEdge(e: InventoryEdge, at: int): Upsert {
    PutEdge(EdgeName(e.from, e.to, e.relation), at, "")
  }

  function EntityUpserts(es: seq<InventoryEntity>, at: int): seq<Upsert> {
    seq(|es|, i requires 0 <= i < |es| => DeclaredEntity(es[i], at))
  }

  function EdgeUpserts(es: seq<InventoryEdge>, at: int): seq<Upsert> {
    seq(|es|, i requires 0 <= i < |es| => DeclaredEdge(es[i], at))
  }

  /** Which problem is reported: the first, entities before edges. */
  ghost predicate Reports(inv: Inventory, r: Outcome) {
    match r
    case BadEntity(i) =>
      i < |inv.entities| && !EntityOK(inv.entities[i]) && forall j :: 0 <= j < i ==> EntityOK(inv.entities[j])
    case BadEdge(i) =>
      && (forall e :: e in inv.entities ==> EntityOK(e))
      && i < |inv.edges| && !EdgeOK(Declared(inv.entities), inv.edges[i])
      && (forall j :: 0 <= j < i ==> EdgeOK(Declared(inv.entities), inv.edges[j]))
    case Applied =>
      && (forall e :: e in inv.entities ==> EntityOK(e))
      && (forall e :: e in inv.edges ==> EdgeOK(Declared(inv.entities), e))
  }

  /** What has been merged by the time the outcome is reported: everything before
      the problem. There is no rollback. */
  function Merged(inv: Inventory, r: Outcome, at: int): seq<Upsert> {
    match r
    case BadEntity(i) => if i <= |inv.entities| then EntityUpserts(inv.entities[..i], at) else []
    case BadEdge(i) =>
      EntityUpserts(inv.entities, at) + if i <= |inv.edges| then EdgeUpserts(inv.edges[..i], at) else []
    case Applied => EntityUpserts(inv.entities, at) + EdgeUpserts(inv.edges, at)
  }

  method ApplyInventory(g: Graph, inv: Inventory, at: int) returns (r: Outcome)
    requires g.Valid()
    modifies g.Repr()
    ensures g.Valid() && fresh(g.Repr() - old(g.Repr()))
    ensures Reports(inv, r)
    ensures g.Content() == ApplyAll(old(g.Content()), Merged(inv, r, at))
  {
    hide ApplyAll, Graph.Valid, Graph.Content;
    var bad, ids := ApplyEntities(g, inv.entities, at);
    if bad < |inv.entities| {
      return BadEntity(bad);
    }
    assert inv.entities[..bad] == inv.entities;
    ghost var middle := g.Content();
    bad := ApplyEdges(g, ids, inv.edges, at);
    ApplyAllSplits(old(g.Content()), EntityUpserts(inv.entities, at), EdgeUpserts(inv.edges[..bad], at));
    if bad < |inv.edges| {
      return BadEdge(bad);
    }
    assert inv.edges[..bad] == inv.edges;
    r := Applied;
  }

  method ApplyEntities(g: Graph, es: seq<InventoryEntity>, at: int) returns (bad: nat, ids: set<string>)
    requires g.Valid()
    modifies g.Repr()
    ensures g.Valid() && fresh(g.Repr() - old(g.Repr()))
    ensures bad <= |es| && (bad < |es| ==> !EntityOK(es[bad]))
    ensures forall j :: 0 <= j < bad ==> EntityOK(es[j])
    ensures ids == Declared(es[..bad])
    ensures g.Content() == ApplyAll(old(g.Content()), EntityUpserts(es[..bad], at))
  {
    hide Graph.Valid, Graph.Content, Apply, EntityOK, EntityID, ApplyAll, EntityUpserts, Declared;
    bad, ids := 0, {};
    NoEntities(g.Content(), es, at);
    while bad < |es|
      invariant bad <= |es|
      invariant g.Valid() && fresh(g.Repr() - old(g.Repr()))
      invariant forall j :: 0 <= j < bad ==> EntityOK(es[j])
      invariant ids == Declared(es[..bad])
      invariant g.Content() == ApplyAll(old(g.Content()), EntityUpserts(es[..bad], at))
    {
      var e := es[bad];
      if !EntityOK(e) {
        return;
      }
      OneMoreEntity(old(g.Content()), es, bad, at);
      ids := ids + {EntityID(e.typ, e.key)};
      ApplyEntity(g, e, at);
      bad := bad + 1;
    }
  }

  method ApplyEntity(g: Graph, e: InventoryEntity, at: int)
    requires g.Valid()
    modifies g.Repr()
    ensures g.Valid() && fresh(g.Repr() - old(g.Repr()))
    ensures g.Content() == Apply(old(g.Content()), DeclaredEntity(e, at))
  {
    var node := g.UpsertEntity(
      EntityVal(EntityID(e.typ, e.key), e.typ, e.key, e.name, e.criticality, e.attributes, at, at, false));
  }

  lemma NoEntities(g: View, es: seq<InventoryEntity>, at: int)
    ensures Declared(es[..0]) == {} && ApplyAll(g, EntityUpserts(es[..0], at)) == g
  {
    assert es[..0] == [];
  }

  lemma OneMoreEntity(g: View, es: seq<InventoryEntity>, i: nat, at: int)
    requires i < |es|
    ensures Declared(es[..i + 1]) == Declared(es[..i]) + {EntityID(es[i].typ, es[i].key)}
    ensures ApplyAll(g, EntityUpserts(es[..i + 1], at)) == Apply(ApplyAll(g, EntityUpserts(es[..i], at)), DeclaredEntity(es[i], at))
  {
    hide ApplyAll, Apply, EntityID;
    assert es[..i + 1] == es[..i] + [es[i]];
    assert forall x :: x in es[..i] + [es[i]] <==> x in es[..i] || x == es[i];
    Grown(g, EntityUpserts(es[..i], at), EntityUpserts(es[..i + 1], at));
  }

  lemma Grown(g: View, us: seq<Upsert>, vs: seq<Upsert>)
    requires |vs| == |us| + 1 && vs[..|us|] == us
    ensures ApplyAll(g, vs) == Apply(ApplyAll(g, us), vs[|us|])
  {
  }

  method ApplyEdges(g: Graph, ids: set<string>, es: seq<InventoryEdge>, at: int) returns (bad: nat)
    requires g.Valid()
    modifies g.Repr()
    ensures g.Valid() && fresh(g.Repr() - old(g.Repr()))
    ensures bad <= |es| && (bad < |es| ==> !EdgeOK(ids, es[bad]))
    ensures forall j :: 0 <= j < bad ==> EdgeOK(ids, es[j])
    ensures g.Content() == ApplyAll(old(g.Content()), EdgeUpserts(es[..bad], at))
  {
    hide Graph.Valid, Graph.Content, Apply, EdgeOK;
    bad := 0;
    while bad < |es|
      invariant bad <= |es|
      invariant g.Valid() && fresh(g.Repr() - old(g.Repr()))
      invariant forall j :: 0 <= j < bad ==> EdgeOK(ids, es[j])
      invariant g.Content() == ApplyAll(old(g.Content()), EdgeUpserts(es[..bad], at))
    {
      var e := es[bad];
      if !EdgeOK(ids, e) {
        return;
      }
      Grown(old(g.Content()), EdgeUpserts(es[..bad], at), EdgeUpserts(es[..bad + 1], at));
      ApplyEdge(g, e, at);
      bad := bad + 1;
    }
  }

  method ApplyEdge(g: Graph, e: InventoryEdge, at: int)
    requires g.Valid()
    modifies g.Repr()
    ensures g.Valid() && fresh(g.Repr() - old(g.Repr()))
    ensures g.Content() == Apply(old(g.Content()), DeclaredEdge(e, at))
  {
    g.UpsertEdge(EdgeName(e.from, e.to, e.relation), at, "");
  }

  // -------------------------------------------------------------------------
  // No inventory, good or bad, leaves a dangling edge
  // -------------------------------------------------------------------------

  lemma {:induction false} EntitiesProgress(g: View, es: seq<InventoryEntity>, at: int)
    ensures var g' := ApplyAll(g, EntityUpserts(es, at));
      Progress(g, g') && Declared(es) <= g'.entities.Keys
    decreases |es|
  {
    hide Progress, ApplyAll, Apply, EntityUpserts, Declared, EntityID;
    if es == [] {
      NoEntities(g, es, at);
      assert es[..0] == es;
      ProgressSelf(g);
    } else {
      var n := |es| - 1;
      assert es[..n + 1] == es;
      OneMoreEntity(g, es, n, at);
      EntitiesProgress(g, es[..n], at);
      var g1 := ApplyAll(g, EntityUpserts(es[..n], at));
      EntityProgress(g1, es[n], at);
      ProgressTransitive(g, g1, Apply(g1, DeclaredEntity(es[n], at)));
      ProgressKeeps(g1, Apply(g1, DeclaredEntity(es[n], at)));
    }
  }

  lemma ProgressSelf(g: View)
    ensures Progress(g, g)
  {
  }

  lemma ProgressKeeps(g: View, g': View)
    requires Progress(g, g')
    ensures g.entities.Keys <= g'.entities.Keys
  {
  }

  lemma EntityProgress(g: View, e: InventoryEntity, at: int)
    ensures Progress(g, Apply(g, DeclaredEntity(e, at)))
    ensures EntityID(e.typ, e.key) in Apply(g, DeclaredEntity(e, at)).entities
  {
    var u := DeclaredEntity(e, at);
    ApplyGrows(g, u);
    if WellFormed(g) {
      ApplyKeepsWellFormed(g, u);
    }
  }

  lemma {:induction false} EdgesProgress(g: View, ids: set<string>, es: seq<InventoryEdge>, at: int)
    requires ids <= g.entities.Keys && forall e :: e in es ==> EdgeOK(ids, e)
    ensures Progress(g, ApplyAll(g, EdgeUpserts(es, at)))
    decreases |es|
  {
    if es == [] {
      ApplyOne(g, PutEdge(EdgeName("", "", ""), 0, ""));
    } else {
      var n := |es| - 1;
      var us := EdgeUpserts(es, at);
      assert us[..n] == EdgeUpserts(es[..n], at);
      EdgesProgress(g, ids, es[..n], at);
      var g1 := ApplyAll(g, us[..n]);
      assert es[n] in es;
      EdgeProgress(g1, ids, es[n], at);
      ProgressTransitive(g, g1, Apply(g1, us[n]));
    }
  }

  lemma EdgeProgress(g: View, ids: set<string>, e: InventoryEdge, at: int)
    requires ids <= g.entities.Keys && EdgeOK(ids, e)
    ensures Progress(g, Apply(g, DeclaredEdge(e, at)))
  {
    var u := DeclaredEdge(e, at);
    ApplyGrows(g, u);
    if WellFormed(g) {
      ApplyKeepsWellFormed(g, u);
    }
  }

  /** Whatever the outcome, including a rejection half way through. */
  lemma InventoryProgress(g: View, inv: Inventory, r: Outcome, at: int)
    requires Reports(inv, r)
    ensures Progress(g, ApplyAll(g, Merged(inv, r, at)))
  {
    hide Progress, ApplyAll, EntityUpserts, EdgeUpserts;
    match r {
      case BadEntity(i) =>
        EntitiesProgress(g, inv.entities[..i], at);
      case BadEdge(i) =>
        EntitiesThenEdges(g, inv.entities, inv.edges[..i], at);
      case Applied =>
        EntitiesThenEdges(g, inv.entities, inv.edges, at);
    }
  }

  lemma EntitiesThenEdges(g: View, entities: seq<InventoryEntity>, edges: seq<InventoryEdge>, at: int)
    requires forall e :: e in edges ==> EdgeOK(Declared(entities), e)
    ensures Progress(g, ApplyAll(g, EntityUpserts(entities, at) + EdgeUpserts(edges, at)))
  {
    hide Progress, ApplyAll, EntityUpserts, EdgeUpserts, EdgeOK;
    var us, vs := EntityUpserts(entities, at), EdgeUpserts(edges, at);
    EntitiesProgress(g, entities, at);
    EdgesProgress(ApplyAll(g, us), Declared(entities), edges, at);
    ProgressTransitive(g, ApplyAll(g, us), ApplyAll(ApplyAll(g, us), vs));
    ApplyAllSplits(g, us, vs);
  }
}

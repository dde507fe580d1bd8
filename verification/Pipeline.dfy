/** The ingest path: an event is stored first, then projected into the graph, and
    only then correlated. Serving any requests in order is a run in the sense of
    `EngineRuns`, so everything proved there holds of the running system. */
module Pipeline {
  import opened Events
  import opened Incidents
  import opened GraphView
  import opened Scale
  import opened Projector
  import opened Correlation
  import opened EngineRuns
  import opened GraphRuns
  import opened Store
  import G = Graph
  import I = Inventory
  import N = Normalization

  datatype Outcome =
    | Refused      // its source time is missing or outside the accepted window
    | NotStored    // the event could not be persisted; nothing else was tried
    | Uncorrelated // stored and projected, correlation unavailable
    | Correlated

  /** Whether correlation answers, or fails once some of its rules have run; absent,
      it fails before the first. */
  datatype Correlator = Working | FailingAfter(rules: nat)

  datatype Request =
    | Event(raw: SecurityEvent, newID: string, storeFails: bool, correlator: Correlator, c: Circumstances)
    | Load(inv: I.Inventory, at: int)

  function NewIDs(requests: seq<Request>): set<string> {
    set r | r in requests && r.Event? :: r.c.newID
  }

  /** Every identifier the generator hands out is new. */
  predicate GeneratesFreshIDs(requests: seq<Request>) {
    forall i :: 0 <= i < |requests| && requests[i].Event? ==>
      requests[i].c.newID != "" && requests[i].c.newID !in NewIDs(requests[..i])
  }

  /** Incidents are only ever opened under the identifier the step was given. */
  lemma OnlyGivenIDs(cfg: Config, w: World, s: Step, w': World)
    requires Inv(cfg, w) && Takes(cfg, w, s, w')
    ensures w'.held.Keys <= w.held.Keys + if s.Correlated? then {s.c.newID} else {}
  {
    hide Inv, Takes, Saves;
    if s.Correlated? {
      SavedWorld(cfg, w, s, w');
      BaseIsHeldOrNew(cfg, w, s, w');
    } else {
      OtherSteps(cfg, w, s, w');
    }
  }

  lemma OneMoreRequest(requests: seq<Request>, i: nat)
    requires i < |requests|
    ensures NewIDs(requests[..i]) <= NewIDs(requests[..i + 1])
    ensures requests[i].Event? ==> requests[i].c.newID in NewIDs(requests[..i + 1])
  {
    var a, b := requests[..i], requests[..i + 1];
    assert forall r :: r in a ==> r in b;
    assert requests[i] in b;
  }

  lemma RunExtends(cfg: Config, ws: seq<World>, ss: seq<Step>, s: Step, w: World)
    requires Run(cfg, ws, ss) && Takes(cfg, ws[|ss|], s, w)
    ensures Run(cfg, ws + [w], ss + [s])
  {
    hide Takes;
    forall i | 0 <= i < |ss + [s]| ensures Takes(cfg, (ws + [w])[i], (ss + [s])[i], (ws + [w])[i + 1]) {
      if i < |ss| {
        assert Takes(cfg, ws[i], ss[i], ws[i + 1]);
      }
    }
  }

  /** A run that ends in `now`, with inventories the only other writers of the graph
      and no incident under an identifier not yet handed out. */
  ghost predicate Served(cfg: Config, ws: seq<World>, ss: seq<Step>, now: World, used: set<string>) {
    Run(cfg, ws, ss) && ws[|ss|] == now && Inventoried(ss) && now.held.Keys <= used
  }

  lemma ServedMore(cfg: Config, ws: seq<World>, ss: seq<Step>, now: World, used: set<string>, s: Step, now': World, used': set<string>)
    requires Served(cfg, ws, ss, now, used) && Takes(cfg, now, s, now') && Inventoried([s])
    requires used <= used' && (s.Correlated? ==> s.c.newID in used')
    ensures Served(cfg, ws + [now'], ss + [s], now', used')
  {
    hide Takes, Inv, FromInventory;
    ReachableWorlds(cfg, ws, ss, |ss|);
    OnlyGivenIDs(cfg, now, s, now');
    RunExtends(cfg, ws, ss, s, now');
    assert s in [s];
  }

  /** Storing the event first only adds it to what is accepted. */
  lemma AcceptedAlready(cfg: Config, w: World, kept: World, s: Step, w': World)
    requires s.Recorded? || s.Correlated?
    requires kept == w.(accepted := w.accepted + {s.ev.id}) && Takes(cfg, kept, s, w')
    ensures Takes(cfg, w, s, w')
  {
    hide ProcessStep, Projected;
    assert kept.accepted + {s.ev.id} == w.accepted + {s.ev.id};
  }

  lemma NormalizedAdmitted(raw: SecurityEvent, newID: string, now: int)
    requires N.InWindow(raw.timestamp, now)
    ensures var ev := N.CanonicalEvent(raw, newID);
      ev.timestamp != ZERO_TIME && (ev.id == "" <==> raw.id == "" && newID == "")
  {
    hide N.Guarded, N.OnSome;
  }

  class Service {
    const store: MemoryStore
    const graph: G.Graph
    const engine: Engine

    constructor (curve: Curve, rules: seq<Rule>, window: int, maxEvents: int)
      ensures Ready() && fresh(Parts())
      ensures Now() == START
      ensures Cfg() == Config(rules, if window <= 0 then DEFAULT_WINDOW else window, curve)
    {
      hide MemoryStore.Valid, G.Graph.Valid, G.Graph.Repr;
      var s := new MemoryStore(maxEvents);
      var g := new G.Graph();
      g.PartsExist();
      store, graph := s, g;
      engine := new Engine(curve, rules, g, s, window);
    }

    ghost function Cfg(): Config {
      Config(engine.rules, engine.window, engine.curve)
    }

    /** Everything the service can reach. */
    ghost function Parts(): set<object>
      reads store, graph
    {
      {this, store, engine} + store.Repr() + graph.Repr()
    }

    ghost predicate Ready()
      reads engine, store, store.Repr(), graph, graph.Repr()
    {
      engine.graph == graph && engine.store == store && engine.Ready()
    }

    ghost function Now(): World
      reads engine, store, graph, graph.Repr()
    {
      World(graph.Content(), engine.openSubjects, engine.thresholdHits, store.held, EventIds(store.accepted))
    }

    /** The record comes first: nothing reasons about an event that is not stored. */
    method Keep(ev: SecurityEvent, storeFails: bool) returns (stored: bool)
      requires Ready()
      modifies store`events, store`eventIDs, store`accepted
      ensures Ready() && Parts() == old(Parts())
      ensures stored <==> !storeFails && ev.id != ""
      ensures Now() == old(Now()).(accepted := old(Now()).accepted + if stored then {ev.id} else {})
    {
      hide G.Graph.Valid, G.Graph.Content, MemoryStore.Valid;
      stored := false;
      if !storeFails {
        stored := store.SaveEvent(ev);
      }
      assert graph.Valid();
      assert stored ==> EventIds(store.accepted) == EventIds(old(store.accepted)) + {ev.id};
    }

    method Chart(ev: SecurityEvent)
      requires Ready()
      modifies graph.Repr()
      ensures Ready() && fresh(Parts() - old(Parts())) && fresh(graph.Repr() - old(graph.Repr()))
      ensures Now() == old(Now()).(graph := Projected(old(Now()).graph, ev))
    {
      hide G.Graph.Valid, G.Graph.Content, MemoryStore.Valid, Projected, EventIds;
      Project(graph, ev);
    }

    method Correlate(ev: SecurityEvent, c: Circumstances) returns (ghost built: IncidentVal)
      requires Ready()
      modifies engine, store`incidents, store`incidentOrder, store`held, store`incidentRepr
      ensures Ready() && fresh(Parts() - old(Parts())) && fresh(graph.Repr() - old(graph.Repr()))
      ensures var w, w' := old(Now()), Now();
        && w'.graph == w.graph && w'.accepted == w.accepted
        && ProcessStep(Cfg().rules, Cfg().window, Cfg().curve, w.graph, ev, c, w.open, w.hits, w.held, built, w'.open, w'.hits, w'.held)
    {
      hide G.Graph.Valid, G.Graph.Content, MemoryStore.Valid, ProcessStep, EventIds;
      var inc;
      inc, built := engine.Process(ev, c);
    }

    method Interrupt(ev: SecurityEvent, ran: nat)
      requires Ready() && ran <= |engine.rules|
      modifies engine`thresholdHits
      ensures Ready() && Parts() == old(Parts())
      ensures Now() == old(Now()).(hits := Evaluate(Cfg().rules[..ran], old(Now()).hits, ev).hits)
    {
      hide G.Graph.Valid, G.Graph.Content, MemoryStore.Valid, EventIds, Evaluate;
      engine.ProcessFailing(ev, ran);
    }

    /** An event that is stored, on its way into the graph and the engine. */
    method Follow(ev: SecurityEvent, correlator: Correlator, c: Circumstances) returns (ghost step: Step)
      requires Ready() && Admitted(ev) && FreshID(store.held, c) && ev.id in Now().accepted
      modifies engine, store`incidents, store`incidentOrder, store`held, store`incidentRepr, graph.Repr()
      ensures Ready() && fresh(Parts() - old(Parts())) && fresh(graph.Repr() - old(graph.Repr()))
      ensures Takes(Cfg(), old(Now()), step, Now())
      ensures if correlator.Working? then step.Correlated? && step.ev == ev && step.c == c else step.Recorded? && step.ev == ev
    {
      hide Ready, ProcessStep, Projected, EventIds, G.Graph.Content;
      Chart(ev);
      if correlator.Working? {
        ghost var built := Correlate(ev, c);
        step := Step.Correlated(ev, c, built);
      } else {
        var ran := if correlator.rules < |engine.rules| then correlator.rules else |engine.rules|;
        Interrupt(ev, ran);
        step := Recorded(ev, ran);
      }
    }

    /** A normalized event, on its way into the store and then further. */
    method Enter(ev: SecurityEvent, storeFails: bool, correlator: Correlator, c: Circumstances)
      returns (r: Outcome, ghost step: Step)
      requires Ready() && FreshID(store.held, c) && ev.timestamp != ZERO_TIME
      modifies engine, store, graph.Repr()
      ensures Ready() && fresh(Parts() - old(Parts())) && fresh(graph.Repr() - old(graph.Repr()))
      ensures !r.Refused? && (r.NotStored? <==> storeFails || ev.id == "")
      ensures r.NotStored? ==> Now() == old(Now())
      ensures !r.NotStored? ==> Takes(Cfg(), old(Now()), step, Now())
      ensures !r.NotStored? ==> (step.Correlated? || step.Recorded?) && step.ev == ev
      ensures step.Correlated? ==> step.c == c
    {
      hide Ready, Takes, EventIds, G.Graph.Content;
      step := Upserted([]);
      var stored := Keep(ev, storeFails);
      if !stored {
        return NotStored, step;
      }
      ghost var kept := Now();
      step := Follow(ev, correlator, c);
      AcceptedAlready(Cfg(), old(Now()), kept, step, Now());
      r := if correlator.Working? then Outcome.Correlated else Uncorrelated;
    }

    /** An event as decoded; `newID` is what the generator would name it. */
    method Ingest(raw: SecurityEvent, newID: string, storeFails: bool, correlator: Correlator, c: Circumstances)
      returns (r: Outcome, ghost step: Step)
      requires Ready() && FreshID(store.held, c)
      modifies engine, store, graph.Repr()
      ensures Ready() && fresh(Parts() - old(Parts())) && fresh(graph.Repr() - old(graph.Repr()))
      ensures r.Refused? <==> !N.InWindow(raw.timestamp, c.now)
      ensures r.Refused? || r.NotStored? ==> Now() == old(Now())
      ensures r.NotStored? <==> !r.Refused? && (storeFails || (raw.id == "" && newID == ""))
      ensures r.Uncorrelated? || r.Correlated? ==> Takes(Cfg(), old(Now()), step, Now())
      ensures step.Correlated? ==> step.c == c
      ensures r.Uncorrelated? || r.Correlated? ==>
        (step.Correlated? || step.Recorded?) && step.ev == N.CanonicalEvent(raw, newID)
    {
      hide G.Graph.Valid, G.Graph.Content, G.Graph.Repr, MemoryStore.Valid, Takes, EventIds, N.CanonicalEvent, N.InWindow;
      step := Upserted([]);
      graph.PartsExist();
      var normalized := N.Normalize(raw, c.now, newID);
      if normalized.Rejected? {
        return Refused, step;
      }
      NormalizedAdmitted(raw, newID, c.now);
      r, step := Enter(normalized.ev, storeFails, correlator, c);
    }

    method LoadInventory(inv: I.Inventory, at: int) returns (r: I.Outcome, ghost step: Step)
      requires Ready()
      modifies graph.Repr()
      ensures Ready() && fresh(Parts() - old(Parts())) && fresh(graph.Repr() - old(graph.Repr()))
      ensures I.Reports(inv, r)
      ensures step == Upserted(I.Merged(inv, r, at)) && Takes(Cfg(), old(Now()), step, Now())
      ensures FromInventory(step.us)
    {
      hide G.Graph.Valid, G.Graph.Content, MemoryStore.Valid, EventIds, ApplyAll, I.Reports;
      r := I.ApplyInventory(graph, inv, at);
      step := Upserted(I.Merged(inv, r, at));
    }

    method Handle(request: Request) returns (moved: bool, ghost step: Step)
      requires Ready() && (request.Event? ==> FreshID(store.held, request.c))
      modifies engine, store, graph.Repr()
      ensures Ready() && fresh(graph.Repr() - old(graph.Repr()))
      ensures if moved then Takes(Cfg(), old(Now()), step, Now()) else Now() == old(Now())
      ensures moved && step.Correlated? ==> request.Event? && step.c == request.c
      ensures moved ==> Inventoried([step])
    {
      hide Ready, Takes, FromInventory, Now;
      match request
      case Event(raw, newID, storeFails, correlator, c) =>
        var r;
        r, step := Ingest(raw, newID, storeFails, correlator, c);
        moved := r.Uncorrelated? || r.Correlated?;
      case Load(inv, at) =>
        var r;
        r, step := LoadInventory(inv, at);
        moved := true;
    }

    /** One request, as one more step of the run so far or none. */
    method ServeOne(request: Request, ghost ws: seq<World>, ghost ss: seq<Step>, ghost used: set<string>, ghost used': set<string>)
      returns (ghost ws': seq<World>, ghost ss': seq<Step>)
      requires Ready() && Served(Cfg(), ws, ss, Now(), used) && used <= used'
      requires request.Event? ==> request.c.newID != "" && request.c.newID !in used && request.c.newID in used'
      modifies engine, store, graph.Repr()
      ensures Ready() && fresh(graph.Repr() - old(graph.Repr()))
      ensures Served(Cfg(), ws', ss', Now(), used')
    {
      ghost var before := Now();
      assert store.held == before.held;
      var moved, step := Handle(request);
      hide Ready, Takes, Now, FromInventory;
      ws', ss' := ws, ss;
      if moved {
        ServedMore(Cfg(), ws, ss, before, used, step, Now(), used');
        ws', ss' := ws + [Now()], ss + [step];
      }
    }

    /** Serving requests one after another is a run, and one that leaves no edge of
        the graph dangling and no incident citing an unknown entity. */
    method Serve(requests: seq<Request>) returns (ghost ws: seq<World>, ghost ss: seq<Step>)
      requires Ready() && Now() == START && GeneratesFreshIDs(requests)
      modifies engine, store, graph.Repr()
      ensures Ready()
      ensures Run(Cfg(), ws, ss) && ws[|ss|] == Now()
      ensures Inventoried(ss) && Grounded(Now())
    {
      hide Ready, Takes, NewIDs, Served, Now, Grounded;
      ws, ss := [Now()], [];
      NothingServed(Cfg());
      for i := 0 to |requests|
        invariant Ready() && fresh(graph.Repr() - old(graph.Repr()))
        invariant Served(Cfg(), ws, ss, Now(), NewIDs(requests[..i]))
      {
        OneMoreRequest(requests, i);
        ws, ss := ServeOne(requests[i], ws, ss, NewIDs(requests[..i]), NewIDs(requests[..i + 1]));
      }
      ServedGrounded(Cfg(), ws, ss, Now(), NewIDs(requests[..|requests|]));
    }
  }

  lemma NothingServed(cfg: Config)
    ensures Served(cfg, [START], [], START, NewIDs([]))
  {
  }

  lemma ServedGrounded(cfg: Config, ws: seq<World>, ss: seq<Step>, now: World, used: set<string>)
    requires Served(cfg, ws, ss, now, used)
    ensures Run(cfg, ws, ss) && ws[|ss|] == now && Inventoried(ss) && Grounded(now)
  {
    hide Takes, Grounded, FromInventory;
    RunsStayGrounded(cfg, ws, ss, |ss|);
  }
}

/**
 * Update rates: an agent holds for each associated source the rate of the last event about it,
 * which is the rate that the router gave the source, or undefined after a disassociation.
 */
module IoRates {
  import opened Prelude
  import opened IoModel
  import opened IoRules
  import opened RuleBasedIoRouter
  import opened IoAgent
  import opened IoRouting

  // ---------------------------------------------------------------- the rate an agent holds

  /** The rate of the last event about source `s`, if there is any. */
  function LastRate(events: seq<AssociateEvent>, s: Uuid): Option<Option<real>> {
    if events == [] then None
    else
      var last := events[|events| - 1];
      if last.sourceId == s then Some(last.updateRate) else LastRate(events[..|events| - 1], s)
  }

  /** An event sets the rate of its own source, and leaves the others alone. */
  lemma HandleSetsRate(points: set<Uuid>, st: AgentState, e: AssociateEvent, s: Uuid)
    requires s in Handle(points, st, e).sources && (s in st.sources ==> s in points)
    ensures s in points || s in st.sources
    ensures if s == e.sourceId then Handle(points, st, e).sources[s].updateRate == e.updateRate
            else s in st.sources && Handle(points, st, e).sources[s] == st.sources[s]
  {
    hide Link, Dissolve, DissolveAll;
  }

  /** After any events, a source has the rate of the last event about it, or the one it had before. */
  lemma {:induction false} HeldRate(points: set<Uuid>, st: AgentState, events: seq<AssociateEvent>, s: Uuid)
    requires forall t <- st.sources :: t in points
    requires s in HandleAll(points, st, events).sources
    ensures s in points
    ensures match LastRate(events, s)
            case Some(rate) => HandleAll(points, st, events).sources[s].updateRate == rate
            case None => s in st.sources && HandleAll(points, st, events).sources[s] == st.sources[s]
  {
    hide Handle;
    if events != [] {
      var n := |events| - 1;
      var before := HandleAll(points, st, events[..n]);
      OwnSources(points, st, events[..n]);
      HandleSetsRate(points, before, events[n], s);
      if s != events[n].sourceId {
        HeldRate(points, st, events[..n], s);
      } else {
        OwnSources(points, st, events);
      }
    }
  }

  lemma {:induction false} OwnSources(points: set<Uuid>, st: AgentState, events: seq<AssociateEvent>)
    requires forall t <- st.sources :: t in points
    ensures forall t <- HandleAll(points, st, events).sources :: t in points
  {
    if events != [] {
      OwnSources(points, st, events[..|events| - 1]);
      HandleOwnSources(points, HandleAll(points, st, events[..|events| - 1]), events[|events| - 1]);
    }
  }

  lemma HandleOwnSources(points: set<Uuid>, st: AgentState, e: AssociateEvent)
    requires forall t <- st.sources :: t in points
    ensures forall t <- Handle(points, st, e).sources :: t in points
  {
    hide Link, Dissolve, DissolveAll;
  }

  /** So a source that an agent holds has the rate of the last event about it. */
  lemma RateOfLastEvent(points: set<Uuid>, events: seq<AssociateEvent>, s: Uuid)
    requires s in HandleAll(points, INITIAL, events).sources
    ensures LastRate(events, s) == Some(HandleAll(points, INITIAL, events).sources[s].updateRate)
  {
    HeldRate(points, INITIAL, events, s);
  }

  // ---------------------------------------------------------------- the rates the router announces

  /** Events on a route carry the new rate; pairs without an event keep theirs; other events carry no rate. */
  ghost predicate CarryRates(events: seq<AssociateEvent>, before: map<Pair, Association>,
                             after: map<Pair, Association>)
  {
    && (forall e <- events ::
          if e.route.Some? then e.Pair() in after && e.updateRate == after[e.Pair()].rate else e.updateRate == None)
    && (forall p <- after ::
          (exists e <- events :: e.Pair() == p) || (p in before && before[p].rate == after[p].rate))
  }

  lemma AnnouncedRates(events: seq<AssociateEvent>, before: map<Pair, Association>, after: map<Pair, Association>,
                       routes: map<Uuid, string>, createIoRoute: Uuid -> string)
    requires Announces(events, before, after, routes, createIoRoute, before.Keys + after.Keys)
    ensures CarryRates(events, before, after)
  {
    hide RouteFor, DistinctEventPairs;
    forall e | e in events
      ensures if e.route.Some? then e.Pair() in after && e.updateRate == after[e.Pair()].rate
              else e.updateRate == None
    {
      assert ChangeFor(before, after, routes, createIoRoute, e.Pair()) == Some(e);
    }
    forall p | p in after
      ensures (exists e <- events :: e.Pair() == p) || (p in before && before[p].rate == after[p].rate)
    {
      var change := ChangeFor(before, after, routes, createIoRoute, p);
      if change.Some? {
        assert p in before.Keys + after.Keys;
        assert change.value in events && change.value.Pair() == p;
      }
    }
  }

  lemma PerformsRates(r: RouterState, op: RouterOp, r': RouterState, events: seq<AssociateEvent>,
                      createIoRoute: Uuid -> string)
    requires DistinctPairs(r.associations) && DistinctPairs(r'.associations)
    requires Performs(r, op, r', events, createIoRoute)
    ensures CarryRates(events, AsMap(r.associations), AsMap(r'.associations))
  {
    hide AsMap, Resolved, Announces, RoutesFollow, Deregister, RuleTable, DistinctPairs, CarryRates;
    var before, after := AsMap(r.associations), AsMap(r'.associations);
    match op
    case NodeAdvertised(node) =>
      var readvertised := if IsEmptyNode(node) then None else Some(node);
      var (nodes, routes) := Deregister(r.nodes, r.routes, [node.objectId], readvertised);
      if r' == r && events == [] {
        NoRates(before);
      } else {
        AnnouncedRates(events, before, after, routes, createIoRoute);
      }
    case NodesDeadvertised(ids) =>
      var (nodes, routes) := Deregister(r.nodes, r.routes, ids, None);
      if r' == r && events == [] {
        NoRates(before);
      } else {
        AnnouncedRates(events, before, after, routes, createIoRoute);
      }
    case RulesDefined(_) =>
      AnnouncedRates(events, before, after, r.routes, createIoRoute);
    case ContextChanged(_) =>
      AnnouncedRates(events, before, after, r.routes, createIoRoute);
    case Stopped =>
      StoppedRates(events, before, r.associations);
  }

  lemma NoRates(m: map<Pair, Association>)
    ensures CarryRates([], m, m)
  {
  }

  lemma StoppedRates(events: seq<AssociateEvent>, before: map<Pair, Association>, associations: seq<Association>)
    requires |events| == |associations|
    requires forall i | 0 <= i < |events| ::
               events[i] == AssociateEvent(associations[i].source.objectId, associations[i].actor.objectId, None, None)
    ensures AsMap([]) == map[] && CarryRates(events, before, map[])
  {
  }

  // ---------------------------------------------------------------- the rates in every run

  /** Once all is handled, the agent holds for each source the rate of its associations, or none. */
  ghost predicate RatesAgree(agent: Agent, r: RouterState) {
    && DistinctPairs(r.associations)
    && (forall t <- agent.state.sources :: t in agent.Points())
    && var sources := HandleAll(agent.Points(), agent.state, agent.channel).sources;
       forall p <- AsMap(r.associations) | p.0 in sources ::
         sources[p.0].updateRate in [None, AsMap(r.associations)[p].rate]
  }

  lemma {:induction false} LastRateIsOne(events: seq<AssociateEvent>, s: Uuid)
    ensures match LastRate(events, s)
            case Some(rate) => exists e <- events :: e.sourceId == s && e.updateRate == rate
            case None => forall e <- events :: e.sourceId != s
  {
    if events != [] {
      LastRateIsOne(events[..|events| - 1], s);
      assert events == events[..|events| - 1] + [events[|events| - 1]];
    }
  }

  lemma OperationKeepsRates(agent: Agent, r: RouterState, r': RouterState, events: seq<AssociateEvent>)
    requires RatesAgree(agent, r) && DistinctPairs(r'.associations)
    requires Resolved(r'.Config(), AsMap(r'.associations))
    requires CarryRates(events, AsMap(r.associations), AsMap(r'.associations))
    ensures RatesAgree(agent.(channel := agent.channel + events), r')
  {
    hide AsMap, Resolved, Handle, LastRate, HandleAll;
    var points, st := agent.Points(), HandleAll(agent.Points(), agent.state, agent.channel);
    var before, after := AsMap(r.associations), AsMap(r'.associations);
    HandleAllAppend(points, agent.state, agent.channel, events);
    OwnSources(points, agent.state, agent.channel);
    var sources := HandleAll(points, st, events).sources;
    forall p | p in after && p.0 in sources
      ensures sources[p.0].updateRate in [None, after[p].rate]
    {
      HeldRate(points, st, events, p.0);
      LastRateIsOne(events, p.0);
      if LastRate(events, p.0).Some? {
        var e :| e in events && e.sourceId == p.0 && e.updateRate == LastRate(events, p.0).value;
        if e.route.Some? {
          assert e.Pair().0 == p.0;
          OneRatePerSource(r'.Config(), after, e.Pair(), p);
        }
      } else {
        assert forall e <- events :: e.Pair().0 == e.sourceId;
        assert p in before && before[p].rate == after[p].rate;
      }
    }
  }

  lemma DeliveryKeepsRates(agent: Agent, agent': Agent, r: RouterState)
    requires RatesAgree(agent, r) && agent.channel != [] && Receives(agent, agent')
    ensures RatesAgree(agent', r)
  {
    hide AsMap, Handle, Observes, AddsCalls, DistinctPairs;
    var points, first := agent.Points(), [agent.channel[0]];
    HandleAllAppend(points, agent.state, first, agent.channel[1..]);
    assert agent.channel == first + agent.channel[1..];
    assert first[..|first| - 1] == [];
    assert HandleAll(points, agent.state, first) == Handle(points, agent.state, agent.channel[0]);
    HandleOwnSources(points, agent.state, agent.channel[0]);
  }

  ghost predicate AllRatesAgree(sys: System) {
    && DistinctPairs(sys.router.associations)
    && Resolved(sys.router.Config(), AsMap(sys.router.associations))
    && forall i <- sys.agents :: RatesAgree(sys.agents[i], sys.router)
  }

  lemma NextKeepsRates(sys: System, step: Step, sys': System, createIoRoute: Uuid -> string)
    requires AllRatesAgree(sys) && Next(sys, step, sys', createIoRoute)
    requires IsValidEventFilter(sys'.router.context.name)
    ensures AllRatesAgree(sys')
  {
    hide Performs, AsMap, Resolved, RatesAgree, Receives, CarryRates, DistinctPairs, IsValidEventFilter;
    match step
    case Router(op) =>
      var events :| Performs(sys.router, op, sys'.router, events, createIoRoute) && Published(sys, sys', events);
      PerformsKeepsResolved(sys.router, op, sys'.router, events, createIoRoute);
      PerformsRates(sys.router, op, sys'.router, events, createIoRoute);
      forall i | i in sys'.agents
        ensures RatesAgree(sys'.agents[i], sys'.router)
      {
        OperationKeepsRates(sys.agents[i], sys.router, sys'.router, events);
      }
    case Deliver(id) =>
      DeliveryKeepsRates(sys.agents[id], sys'.agents[id], sys.router);
  }

  lemma NextKeepsName(sys: System, step: Step, sys': System, createIoRoute: Uuid -> string)
    requires Next(sys, step, sys', createIoRoute)
    ensures sys'.router.context.name == sys.router.context.name
  {
    hide Deregister, Resolved, Announces, RoutesFollow, RuleTable, AsMap, Receives;
  }

  lemma InitRates(sys: System)
    requires Init(sys)
    ensures AllRatesAgree(sys)
  {
    hide Resolved;
    NothingResolved(sys.router.Config());
    assert AsMap([]) == map[];
  }

  /**
   * In every reachable state of every run, an agent that has handled the events on its way to it
   * holds for each of its associated sources the rate of the router, or no rate at all.
   */
  lemma {:induction false} AgentsHoldRates(trace: seq<System>, steps: seq<Step>, k: nat, createIoRoute: Uuid -> string)
    requires IsRun(trace, steps, createIoRoute) && k < |trace|
    ensures AllRatesAgree(trace[k]) && IsValidEventFilter(trace[k].router.context.name)
  {
    hide Next, Init, AllRatesAgree, IsValidEventFilter;
    if k == 0 {
      InitRates(trace[0]);
      InitName(trace[0]);
    } else {
      AgentsHoldRates(trace, steps, k - 1, createIoRoute);
      NextKeepsName(trace[k - 1], steps[k - 1], trace[k], createIoRoute);
      NextKeepsRates(trace[k - 1], steps[k - 1], trace[k], createIoRoute);
    }
  }

  lemma InitName(sys: System)
    requires Init(sys)
    ensures IsValidEventFilter(sys.router.context.name)
  {
  }
}

/**
 * The IO routing protocol: one router and any number of agents. The router publishes its
 * Associate events to all agents that subscribed to its context; each agent receives them
 * over a lossless FIFO channel and handles them one by one. Router operations and
 * deliveries interleave arbitrarily.
 */
module IoRouting {
  import opened Prelude
  import opened IoModel
  import opened IoRules
  import opened RuleBasedIoRouter
  import opened IoAgent

  type AgentId = nat

  /**
   * An agent: its own IO points with their flags for raw values, its routing state, its calls to
   * its binding, and the events on their way to it.
   */
  datatype Agent = Agent(
    ioPoints: map<Uuid, bool>, state: AgentState, calls: seq<BindingCall>, channel: seq<AssociateEvent>)
  {
    function Points(): set<Uuid> { ioPoints.Keys }
  }

  datatype System = System(router: RouterState, agents: map<AgentId, Agent>)

  datatype Step = Router(op: RouterOp) | Deliver(id: AgentId)

  /** Event filters are non-empty and free of NUL, `#`, `+` and `/`. */
  predicate IsValidEventFilter(name: string) {
    name != "" && forall c <- name :: c != '\0' && c != '#' && c != '+' && c != '/'
  }

  /** What `publishAssociate` lets through: everything if the context name is a valid event filter, else nothing. */
  function Transmitted(contextName: string, events: seq<AssociateEvent>): seq<AssociateEvent> {
    if IsValidEventFilter(contextName) then events else []
  }

  ghost predicate Init(sys: System) {
    && IsValidEventFilter(sys.router.context.name)
    && sys.router == RouterState(sys.router.context, [], map[], map[], [])
    && forall i <- sys.agents ::
         sys.agents[i].state == INITIAL && sys.agents[i].calls == [] && sys.agents[i].channel == []
  }

  /** `sys'` is `sys` after the router published `events`. */
  ghost predicate Published(sys: System, sys': System, events: seq<AssociateEvent>) {
    && sys'.agents.Keys == sys.agents.Keys
    && forall i <- sys.agents :: sys'.agents[i] ==
         sys.agents[i].(channel := sys.agents[i].channel + Transmitted(sys'.router.context.name, events))
  }

  /** The agent handles the first event on its way to it. */
  ghost predicate Receives(agent: Agent, agent': Agent)
    requires agent.channel != []
  {
    && agent' == agent.(state := agent'.state, calls := agent'.calls, channel := agent.channel[1..])
    && Handles(agent.ioPoints, agent.state, agent.calls, agent.channel[0], agent'.state, agent'.calls)
  }

  /** One step of the system; an IO context keeps its name. */
  ghost predicate Next(sys: System, step: Step, sys': System, createIoRoute: Uuid -> string) {
    match step
    case Router(op) =>
      && DistinctPairs(sys.router.associations)
      && (op.ContextChanged? ==> op.context.name == sys.router.context.name)
      && exists events ::
           Performs(sys.router, op, sys'.router, events, createIoRoute) && Published(sys, sys', events)
    case Deliver(id) =>
      && id in sys.agents && sys.agents[id].channel != [] && id in sys'.agents
      && sys' == sys.(agents := sys.agents[id := sys'.agents[id]])
      && Receives(sys.agents[id], sys'.agents[id])
  }

  ghost predicate IsRun(trace: seq<System>, steps: seq<Step>, createIoRoute: Uuid -> string) {
    && |trace| == |steps| + 1 && Init(trace[0])
    && forall k | 0 <= k < |steps| :: Next(trace[k], steps[k], trace[k + 1], createIoRoute)
  }

  // ---------------------------------------------------------------- sources with the same id

  /**
   * The router keeps one route per source id, and several managed nodes may have a source
   * with the same id. For each id, either all these sources name one `fixed` route, or else
   * no two nodes have one at the same time.
   */
  ghost predicate Respects(nodes: seq<IoNode>, node: IoNode, fixed: Uuid -> Option<string>,
                           createIoRoute: Uuid -> string)
  {
    forall p <- node.ioSources ::
      match fixed(p.objectId)
      case Some(route) => FreshRoute(p, createIoRoute) == route
      case None => forall n <- nodes | n.objectId != node.objectId :: !HasSource(n, p.objectId)
  }

  ghost predicate AllRespect(nodes: seq<IoNode>, fixed: Uuid -> Option<string>, createIoRoute: Uuid -> string) {
    forall n <- nodes :: Respects(nodes, n, fixed, createIoRoute)
  }

  /** Every advertised node respects the nodes managed at that time. */
  ghost predicate IsRespectful(trace: seq<System>, steps: seq<Step>, fixed: Uuid -> Option<string>,
                               createIoRoute: Uuid -> string)
    requires |trace| == |steps| + 1
  {
    forall k | 0 <= k < |steps| && steps[k].Router? && steps[k].op.NodeAdvertised? ::
      Respects(trace[k].router.nodes, steps[k].op.node, fixed, createIoRoute)
  }

  // ---------------------------------------------------------------- agents mirror the router

  /** The state holds exactly the associations `pairs`, restricted to own sources and own actors, on their routes. */
  ghost predicate Mirrors(points: set<Uuid>, st: AgentState, pairs: set<Pair>, routeOf: Uuid -> string) {
    && (forall s, r, a :: Feeds(st.sources, s, r, a) <==> s in points && (s, a) in pairs && r == routeOf(s))
    && (forall s, r, a :: Linked(st.actors, r, a, s) <==> a in points && (s, a) in pairs && r == routeOf(s))
  }

  ghost predicate OnRoute(e: AssociateEvent, routeOf: Uuid -> string) {
    e.route.Some? ==> e.route.value == routeOf(e.sourceId)
  }

  lemma MirrorsSources(points: set<Uuid>, st: AgentState, pairs: set<Pair>, routeOf: Uuid -> string, e: AssociateEvent)
    requires Consistent(points, st) && Mirrors(points, st, pairs, routeOf) && OnRoute(e, routeOf)
    ensures e.sourceId in points ==> !Reroutes(st, e.sourceId, e.route)
  {
    if e.sourceId in points && Reroutes(st, e.sourceId, e.route) {
      assert Feeds(st.sources, e.sourceId, st.sources[e.sourceId].route, st.sources[e.sourceId].actorIds[0]);
    }
  }

  lemma HandleMirrors(points: set<Uuid>, st: AgentState, pairs: set<Pair>, routeOf: Uuid -> string, e: AssociateEvent)
    requires Consistent(points, st) && Mirrors(points, st, pairs, routeOf) && OnRoute(e, routeOf)
    ensures Mirrors(points, Handle(points, st, e), Apply(pairs, e), routeOf)
  {
    hide UpdateSource, Dissolve, Link, TidyActors, TidySources, LooksAt, SidesAgree, OneRoutePerPair;
    var s, a := e.sourceId, e.actorId;
    var st1 := if s in points then UpdateSource(st, s, a, e.route, e.updateRate) else st;
    MirrorsSources(points, st, pairs, routeOf, e);
    if s in points {
      UpdateSourceFeeds(st, s, a, e.route, e.updateRate);
      UpdateSourceLinks(st, s, a, e.route, e.updateRate);
    }
    if a in points {
      if e.route.Some? {
        LinkLinks(st1.actors, s, a, e.route.value);
      } else {
        DissolveEverywhere(st1.actors, s, a);
      }
    }
  }

  lemma {:induction false} HandleAllMirrors(points: set<Uuid>, st: AgentState, pairs: set<Pair>,
          routeOf: Uuid -> string,
                                            events: seq<AssociateEvent>)
    requires Consistent(points, st) && Mirrors(points, st, pairs, routeOf)
    requires forall e <- events :: OnRoute(e, routeOf)
    ensures Consistent(points, HandleAll(points, st, events))
    ensures Mirrors(points, HandleAll(points, st, events), Replay(pairs, events), routeOf)
  {
    hide Consistent, Mirrors, Handle;
    if events != [] {
      var n := |events| - 1;
      HandleAllMirrors(points, st, pairs, routeOf, events[..n]);
      var st1 := HandleAll(points, st, events[..n]);
      HandleMirrors(points, st1, Replay(pairs, events[..n]), routeOf, events[n]);
      HandleKeepsConsistent(points, st1, events[n]);
    }
  }

  lemma {:induction false} HandleAllAppend(points: set<Uuid>, st: AgentState, first: seq<AssociateEvent>,
          second: seq<AssociateEvent>)
    ensures HandleAll(points, st, first + second) == HandleAll(points, HandleAll(points, st, first), second)
  {
    if second == [] {
      assert first + second == first;
    } else {
      var n := |second| - 1;
      assert (first + second)[..|first + second| - 1] == first + second[..n];
      HandleAllAppend(points, st, first, second[..n]);
    }
  }

  // ---------------------------------------------------------------- the routes the router announces

  /** What holds of a router in every reachable state. */
  ghost predicate RouterOk(r: RouterState, fixed: Uuid -> Option<string>, createIoRoute: Uuid -> string) {
    && DistinctPairs(r.associations) && DistinctNodes(r.nodes) && AllRespect(r.nodes, fixed, createIoRoute)
    && Resolved(r.Config(), AsMap(r.associations))
    && RoutesOk(r.routes, AsMap(r.associations), fixed)
  }

  /** Held routes are the fixed ones, if given; associated sources without a fixed route have one. */
  ghost predicate RoutesOk(routes: map<Uuid, string>, m: map<Pair, Association>, fixed: Uuid -> Option<string>) {
    && (forall s <- routes :: fixed(s).Some? ==> routes[s] == fixed(s).value)
    && (forall p <- m :: fixed(p.0).None? ==> p.0 in routes)
  }

  /** The route a source has in the course of an operation: a fixed one, else its new route, else the one before. */
  ghost function RouteDuring(routes: map<Uuid, string>, routes': map<Uuid, string>, fixed: Uuid -> Option<string>,
                             s: Uuid): string
  {
    if fixed(s).Some? then fixed(s).value
    else if s in routes' then routes'[s]
    else if s in routes then routes[s]
    else ""
  }

  /** Sources without a fixed route that stay associated keep their routes when nodes are deregistered. */
  ghost predicate KeepsAssociated(before: map<Pair, Association>, after: map<Pair, Association>,
                                  kept: map<Uuid, string>, fixed: Uuid -> Option<string>)
  {
    forall p <- before, q <- after | p.0 == q.0 && fixed(p.0).None? :: p.0 in kept
  }

  /** Associated sources with a fixed route get that route. */
  ghost predicate GetsFixed(after: map<Pair, Association>, kept: map<Uuid, string>, fixed: Uuid -> Option<string>,
                            createIoRoute: Uuid -> string)
  {
    forall p <- after :: fixed(p.0).Some? ==> RouteFor(kept, after[p].source, createIoRoute) == fixed(p.0).value
  }

  /** An announcement on a route concerns a pair that is associated afterwards. */
  lemma AnnouncedPairs(events: seq<AssociateEvent>, before: map<Pair, Association>, after: map<Pair, Association>,
                       kept: map<Uuid, string>, createIoRoute: Uuid -> string)
    requires Announces(events, before, after, kept, createIoRoute, before.Keys + after.Keys)
    ensures forall e <- events | e.route.Some? ::
              e.Pair() in after && e.route.value == RouteFor(kept, after[e.Pair()].source, createIoRoute)
    ensures forall p <- after :: p in before || exists e <- events :: e.sourceId == p.0 && e.route.Some?
  {
    hide RouteFor, DistinctEventPairs;
    forall e | e in events && e.route.Some?
      ensures e.Pair() in after && e.route.value == RouteFor(kept, after[e.Pair()].source, createIoRoute)
    {
      assert ChangeFor(before, after, kept, createIoRoute, e.Pair()) == Some(e);
    }
    forall p | p in after && p !in before
      ensures exists e <- events :: e.sourceId == p.0 && e.route.Some?
    {
      assert p in before.Keys + after.Keys;
      assert ChangeFor(before, after, kept, createIoRoute, p).value in events;
    }
  }

  /** An announcement is made on the route of its source. */
  lemma AnnouncedRoute(routes: map<Uuid, string>, kept: map<Uuid, string>, routes': map<Uuid, string>,
                       events: seq<AssociateEvent>, after: map<Pair, Association>,
                       fixed: Uuid -> Option<string>, createIoRoute: Uuid -> string, e: AssociateEvent)
    requires RoutesFollow(kept, routes', events) && GetsFixed(after, kept, fixed, createIoRoute)
    requires e in events && e.route.Some? && e.Pair() in after
    requires e.route.value == RouteFor(kept, after[e.Pair()].source, createIoRoute)
    ensures e.route.value == RouteDuring(routes, routes', fixed, e.sourceId)
  {
    hide RouteFor;
    assert e.Pair().0 == e.sourceId;
  }

  /** A source that is associated before an evaluation has its route in the course of it. */
  lemma HeldRoute(routes: map<Uuid, string>, kept: map<Uuid, string>, routes': map<Uuid, string>,
                  events: seq<AssociateEvent>, before: map<Pair, Association>, after: map<Pair, Association>,
                  fixed: Uuid -> Option<string>, p: Pair)
    requires RoutesFollow(kept, routes', events) && KeepsAssociated(before, after, kept, fixed)
    requires forall s <- kept :: s in routes && kept[s] == routes[s]
    requires forall e <- events | e.route.Some? :: e.Pair() in after
    requires RoutesOk(routes, before, fixed) && p in before && fixed(p.0).None?
    ensures p.0 in routes && RouteDuring(routes, routes', fixed, p.0) == routes[p.0]
  {
  }

  lemma RoutesStayOk(routes: map<Uuid, string>, kept: map<Uuid, string>, routes': map<Uuid, string>,
                     events: seq<AssociateEvent>, before: map<Pair, Association>, after: map<Pair, Association>,
                     fixed: Uuid -> Option<string>, createIoRoute: Uuid -> string)
    requires RoutesFollow(kept, routes', events) && KeepsAssociated(before, after, kept, fixed)
    requires forall s <- kept :: s in routes && kept[s] == routes[s]
    requires RoutesOk(routes, before, fixed) && GetsFixed(after, kept, fixed, createIoRoute)
    requires forall e <- events | e.route.Some? ::
               e.Pair() in after && e.route.value == RouteFor(kept, after[e.Pair()].source, createIoRoute)
    requires forall p <- after :: p in before || exists e <- events :: e.sourceId == p.0 && e.route.Some?
    ensures RoutesOk(routes', after, fixed)
  {
    hide RouteFor;
    forall p | p in after && fixed(p.0).None?
      ensures p.0 in routes'
    {
      if p !in before {
        var e :| e in events && e.sourceId == p.0 && e.route.Some?;
      }
    }
    forall s | s in routes' && fixed(s).Some?
      ensures routes'[s] == fixed(s).value
    {
      if s !in kept {
        var e :| e in events && e.sourceId == s && e.route.Some?;
        assert e.Pair().0 == s;
      }
    }
  }

  /**
   * In the course of an evaluation every source has one route: the one that its old
   * associations have, that all announcements are made on, and that it keeps.
   */
  lemma AnnouncedRoutes(routes: map<Uuid, string>, kept: map<Uuid, string>, routes': map<Uuid, string>,
                        events: seq<AssociateEvent>, before: map<Pair, Association>, after: map<Pair, Association>,
                        fixed: Uuid -> Option<string>, createIoRoute: Uuid -> string)
    requires Announces(events, before, after, kept, createIoRoute, before.Keys + after.Keys)
    requires RoutesFollow(kept, routes', events) && KeepsAssociated(before, after, kept, fixed)
    requires forall s <- kept :: s in routes && kept[s] == routes[s]
    requires RoutesOk(routes, before, fixed) && GetsFixed(after, kept, fixed, createIoRoute)
    ensures forall e <- events | e.route.Some? ::
              e.Pair() in after && e.route.value == RouteDuring(routes, routes', fixed, e.sourceId)
    ensures forall p <- before | fixed(p.0).None? ::
              p.0 in routes && RouteDuring(routes, routes', fixed, p.0) == routes[p.0]
    ensures RoutesOk(routes', after, fixed)
  {
    hide Announces, RouteFor, RoutesOk, RoutesFollow, KeepsAssociated, GetsFixed, RouteDuring;
    AnnouncedPairs(events, before, after, kept, createIoRoute);
    forall e | e in events && e.route.Some?
      ensures e.Pair() in after && e.route.value == RouteDuring(routes, routes', fixed, e.sourceId)
    {
      AnnouncedRoute(routes, kept, routes', events, after, fixed, createIoRoute, e);
    }
    forall p | p in before && fixed(p.0).None?
      ensures p.0 in routes && RouteDuring(routes, routes', fixed, p.0) == routes[p.0]
    {
      HeldRoute(routes, kept, routes', events, before, after, fixed, p);
    }
    RoutesStayOk(routes, kept, routes', events, before, after, fixed, createIoRoute);
  }

  /** Associated sources belong to managed nodes. */
  lemma AssociatedSourceIsManaged(cfg: Config, m: map<Pair, Association>, p: Pair) returns (node: IoNode)
    requires Resolved(cfg, m) && p in m
    ensures node in cfg.nodes && m[p].source in node.ioSources && m[p].source.objectId == p.0
  {
    hide Resolved, SourceTable, ActorTable;
    ResolvedFromTables(cfg, m, p);
    SourceTableKeyed(cfg.nodes);
    node := SourceTable(cfg.nodes)[p.0].1;
  }

  lemma AssociatedGetFixed(cfg: Config, m: map<Pair, Association>, kept: map<Uuid, string>,
                           fixed: Uuid -> Option<string>, createIoRoute: Uuid -> string)
    requires Resolved(cfg, m) && AllRespect(cfg.nodes, fixed, createIoRoute)
    requires forall s <- kept :: fixed(s).Some? ==> kept[s] == fixed(s).value
    ensures GetsFixed(m, kept, fixed, createIoRoute)
  {
    hide Resolved, FreshRoute, HasSource;
    forall p | p in m && fixed(p.0).Some?
      ensures RouteFor(kept, m[p].source, createIoRoute) == fixed(p.0).value
    {
      var node := AssociatedSourceIsManaged(cfg, m, p);
      assert Respects(cfg.nodes, node, fixed, createIoRoute);
    }
  }

  /** What an operation publishes, and the routes it does so on. */
  ghost predicate PublishesRoutes(r: RouterState, r': RouterState, events: seq<AssociateEvent>,
                                  fixed: Uuid -> Option<string>)
    requires DistinctPairs(r.associations) && DistinctPairs(r'.associations)
  {
    && (forall e <- events | e.route.Some? ::
          e.Pair() in AsMap(r'.associations) &&
          e.route.value == RouteDuring(r.routes, r'.routes, fixed, e.sourceId))
    && (forall p <- AsMap(r.associations) | fixed(p.0).None? ::
          p.0 in r.routes && RouteDuring(r.routes, r'.routes, fixed, p.0) == r.routes[p.0])
    && RoutesOk(r'.routes, AsMap(r'.associations), fixed)
    && AsMap(r'.associations).Keys == Replay(AsMap(r.associations).Keys, events)
  }

  lemma EvaluatesRoutes(r: RouterState, r1: RouterState, r': RouterState, events: seq<AssociateEvent>,
                        fixed: Uuid -> Option<string>, createIoRoute: Uuid -> string)
    requires RouterOk(r, fixed, createIoRoute) && r1.associations == r.associations
    requires DistinctPairs(r1.associations) && Evaluates(r1, r', events, createIoRoute)
    requires AllRespect(r1.nodes, fixed, createIoRoute)
    requires forall s <- r1.routes :: s in r.routes && r1.routes[s] == r.routes[s]
    requires KeepsAssociated(AsMap(r.associations), AsMap(r'.associations), r1.routes, fixed)
    ensures PublishesRoutes(r, r', events, fixed)
  {
    hide Resolved, AsMap, DistinctPairs, Replay, Announces, RoutesFollow, KeepsAssociated, RouteDuring, DistinctNodes,
        AllRespect, GetsFixed;
    var before, after := AsMap(r.associations), AsMap(r'.associations);
    AnnouncedReplay(events, before, after, r1.routes, createIoRoute);
    AssociatedGetFixed(r1.Config(), after, r1.routes, fixed, createIoRoute);
    AnnouncedRoutes(r.routes, r1.routes, r'.routes, events, before, after, fixed, createIoRoute);
  }

  /** Deregistering nodes keeps the routes of all sources that stay associated. */
  lemma DeregisterKeepsAssociated(r: RouterState, ids: seq<Uuid>, readvertised: Option<IoNode>,
                                  nodes1: seq<IoNode>, routes1: map<Uuid, string>,
                                  cfg: Config, after: map<Pair, Association>,
                                  fixed: Uuid -> Option<string>, createIoRoute: Uuid -> string)
    requires RouterOk(r, fixed, createIoRoute) && Resolved(cfg, after)
    requires routes1 == Deregister(r.nodes, r.routes, ids, readvertised).1
    requires cfg.nodes == nodes1
    requires forall n <- nodes1 :: (n in r.nodes && n.objectId !in ids) || readvertised == Some(n)
    ensures KeepsAssociated(AsMap(r.associations), after, routes1, fixed)
  {
    hide Resolved, Deregister, AsMap, FreshRoute;
    DeregisterMeans(r.nodes, r.routes, ids, readvertised);
    forall p, q | p in AsMap(r.associations) && q in after && p.0 == q.0 && fixed(p.0).None?
      ensures p.0 in routes1
    {
      var owner := AssociatedSourceIsManaged(cfg, after, q);
      if !KeepsSource(readvertised, p.0) {
        assert Respects(r.nodes, owner, fixed, createIoRoute);
      }
    }
  }

  lemma {:induction false} AllDissolved(pairs: set<Pair>, events: seq<AssociateEvent>)
    requires forall e <- events :: e.route.None?
    ensures Replay(pairs, events) == set p | p in pairs && forall e <- events :: e.Pair() != p
  {
    if events != [] {
      AllDissolved(pairs, events[..|events| - 1]);
    }
  }

  /** An advertised node that respects the managed ones may join them. */
  lemma RespectKept(nodes: seq<IoNode>, left: seq<IoNode>, node: IoNode, fixed: Uuid -> Option<string>,
                    createIoRoute: Uuid -> string)
    requires AllRespect(nodes, fixed, createIoRoute) && Respects(nodes, node, fixed, createIoRoute)
    requires forall n <- left :: n == node || (n in nodes && n.objectId != node.objectId)
    ensures AllRespect(left, fixed, createIoRoute)
  {
    hide FreshRoute;
    forall n | n in left
      ensures Respects(left, n, fixed, createIoRoute)
    {
      if n != node {
        assert Respects(nodes, n, fixed, createIoRoute);
      }
    }
  }

  lemma RespectSubset(nodes: seq<IoNode>, left: seq<IoNode>, fixed: Uuid -> Option<string>,
                      createIoRoute: Uuid -> string)
    requires AllRespect(nodes, fixed, createIoRoute) && forall n <- left :: n in nodes
    ensures AllRespect(left, fixed, createIoRoute)
  {
    hide FreshRoute, HasSource;
    forall n | n in left
      ensures Respects(left, n, fixed, createIoRoute)
    {
      assert Respects(nodes, n, fixed, createIoRoute);
    }
  }

  lemma DeadvertisesRoutes(r: RouterState, ids: seq<Uuid>, r': RouterState, events: seq<AssociateEvent>,
                           fixed: Uuid -> Option<string>, createIoRoute: Uuid -> string)
    requires RouterOk(r, fixed, createIoRoute) && Deadvertises(r, ids, r', events, createIoRoute)
    requires DistinctPairs(r'.associations)
    ensures PublishesRoutes(r, r', events, fixed)
  {
    hide AsMap, Resolved, Announces, RoutesFollow, Deregister, KeepsAssociated, DistinctPairs, AllRespect, HasSource;
    DeregisterMeans(r.nodes, r.routes, ids, None);
    var (nodes, routes) := Deregister(r.nodes, r.routes, ids, None);
    if |nodes| < |r.nodes| {
      var r1 := r.(nodes := nodes, routes := routes);
      RespectSubset(r.nodes, nodes, fixed, createIoRoute);
      DeregisterKeepsAssociated(r, ids, None, nodes, routes, r1.Config(), AsMap(r'.associations), fixed,
          createIoRoute);
      EvaluatesRoutes(r, r1, r', events, fixed, createIoRoute);
    }
  }

  /** Replaying what an operation publishes on the old associations and routes gives the new ones. */
  lemma PerformsRoutes(r: RouterState, op: RouterOp, r': RouterState, events: seq<AssociateEvent>,
                       fixed: Uuid -> Option<string>, createIoRoute: Uuid -> string)
    requires RouterOk(r, fixed, createIoRoute) && Performs(r, op, r', events, createIoRoute)
    requires DistinctPairs(r'.associations)
    requires op.NodeAdvertised? ==> Respects(r.nodes, op.node, fixed, createIoRoute)
    ensures PublishesRoutes(r, r', events, fixed)
    ensures r'.context == if op.ContextChanged? then op.context else r.context
  {
    hide AsMap, Resolved, Announces, RoutesFollow, Deregister, KeepsAssociated, DistinctPairs, AllRespect, HasSource,
      PublishesRoutes, DistinctNodes, Respects, RoutesOk;
    match op
    case NodeAdvertised(node) =>
      if IsEmptyNode(node) {
        DeadvertisesRoutes(r, [node.objectId], r', events, fixed, createIoRoute);
      } else {
        DeregisterMeans(r.nodes, r.routes, [node.objectId], Some(node));
        var (nodes, routes) := Deregister(r.nodes, r.routes, [node.objectId], Some(node));
        var r1 := r.(nodes := nodes + [node], routes := routes);
        RespectKept(r.nodes, nodes + [node], node, fixed, createIoRoute);
        DeregisterKeepsAssociated(r, [node.objectId], Some(node), nodes + [node], routes, r1.Config(),
            AsMap(r'.associations), fixed, createIoRoute);
        EvaluatesRoutes(r, r1, r', events, fixed, createIoRoute);
      }
    case NodesDeadvertised(ids) =>
      DeadvertisesRoutes(r, ids, r', events, fixed, createIoRoute);
    case RulesDefined(rules) =>
      AllKept(r, AsMap(r'.associations), fixed, createIoRoute);
      EvaluatesRoutes(r, r.(rules := RuleTable(rules)), r', events, fixed, createIoRoute);
    case ContextChanged(context) =>
      AllKept(r, AsMap(r'.associations), fixed, createIoRoute);
      EvaluatesRoutes(r, r.(context := context), r', events, fixed, createIoRoute);
    case Stopped =>
      StoppedRoutes(r, r', events, fixed, createIoRoute);
  }

  lemma AllKept(r: RouterState, after: map<Pair, Association>, fixed: Uuid -> Option<string>,
                createIoRoute: Uuid -> string)
    requires RouterOk(r, fixed, createIoRoute)
    ensures KeepsAssociated(AsMap(r.associations), after, r.routes, fixed)
  {
    hide AsMap, Resolved, AllRespect;
  }

  lemma StoppedRoutes(r: RouterState, r': RouterState, events: seq<AssociateEvent>, fixed: Uuid -> Option<string>,
                      createIoRoute: Uuid -> string)
    requires RouterOk(r, fixed, createIoRoute) && |events| == |r.associations|
    requires r'.associations == [] && r'.routes == map[]
    requires forall i | 0 <= i < |events| ::
               events[i] ==
               AssociateEvent(r.associations[i].source.objectId, r.associations[i].actor.objectId, None, None)
    ensures PublishesRoutes(r, r', events, fixed)
  {
    hide Resolved, AsMap, Replay, AllRespect;
    AllReplayed(r.associations, events);
  }

  lemma AllReplayed(associations: seq<Association>, events: seq<AssociateEvent>)
    requires DistinctPairs(associations) && |events| == |associations|
    requires forall i | 0 <= i < |events| ::
               events[i] == AssociateEvent(associations[i].source.objectId, associations[i].actor.objectId, None, None)
    ensures Replay(AsMap(associations).Keys, events) == {} && AsMap([]) == map[]
    ensures forall e <- events :: e.route.None?
  {
    AllDissolved(AsMap(associations).Keys, events);
  }

  /** What holds of a router stays so. */
  lemma PerformsKeepsRouterOk(r: RouterState, op: RouterOp, r': RouterState, events: seq<AssociateEvent>,
                              fixed: Uuid -> Option<string>, createIoRoute: Uuid -> string)
    requires RouterOk(r, fixed, createIoRoute) && Performs(r, op, r', events, createIoRoute)
    requires op.NodeAdvertised? ==> Respects(r.nodes, op.node, fixed, createIoRoute)
    ensures RouterOk(r', fixed, createIoRoute) && PublishesRoutes(r, r', events, fixed)
    ensures r'.context == if op.ContextChanged? then op.context else r.context
  {
    hide AsMap, Resolved, Performs, DistinctPairs, AllRespect, DistinctNodes, Respects, RoutesOk;
    PerformsKeepsResolved(r, op, r', events, createIoRoute);
    PerformsRoutes(r, op, r', events, fixed, createIoRoute);
    ManagedNodesFollow(r, op, r', events, createIoRoute);
    if op.NodeAdvertised? {
      RespectKept(r.nodes, r'.nodes, op.node, fixed, createIoRoute);
    } else {
      RespectSubset(r.nodes, r'.nodes, fixed, createIoRoute);
    }
  }

  // ---------------------------------------------------------------- the main theorem

  /** The routes of the sources: the fixed ones, else those the router holds. */
  ghost function RouteOf(r: RouterState, fixed: Uuid -> Option<string>): Uuid -> string {
    (s: Uuid) => RouteDuring(r.routes, r.routes, fixed, s)
  }

  /**
   * An agent, once it has handled what is on its way to it, mirrors the router, and it has
   * exactly the routes subscribed that its actors observe.
   */
  ghost predicate InSync(agent: Agent, r: RouterState, fixed: Uuid -> Option<string>)
    requires DistinctPairs(r.associations)
  {
    && Consistent(agent.Points(), agent.state)
    && Observes(agent.calls, agent.state.actors)
    && Mirrors(agent.Points(), HandleAll(agent.Points(), agent.state, agent.channel), AsMap(r.associations).Keys,
        RouteOf(r, fixed))
    && Consistent(agent.Points(), HandleAll(agent.Points(), agent.state, agent.channel))
  }

  ghost predicate Inv(sys: System, fixed: Uuid -> Option<string>, createIoRoute: Uuid -> string) {
    && IsValidEventFilter(sys.router.context.name)
    && RouterOk(sys.router, fixed, createIoRoute)
    && forall i <- sys.agents :: InSync(sys.agents[i], sys.router, fixed)
  }

  /** Mirroring depends on the routes of associated sources only. */
  lemma SameRoutesMirrored(points: set<Uuid>, st: AgentState, pairs: set<Pair>, routeOf: Uuid -> string,
          routeOf': Uuid -> string)
    requires Mirrors(points, st, pairs, routeOf) && forall p <- pairs :: routeOf(p.0) == routeOf'(p.0)
    ensures Mirrors(points, st, pairs, routeOf')
  {
    hide Feeds, Linked;
    forall s, a | (s, a) in pairs
      ensures routeOf(s) == routeOf'(s)
    {
      assert (s, a).0 == s;
    }
  }

  lemma RouterStepKeepsSync(agent: Agent, r: RouterState, r': RouterState, events: seq<AssociateEvent>,
                            fixed: Uuid -> Option<string>, createIoRoute: Uuid -> string)
    requires RouterOk(r, fixed, createIoRoute) && RouterOk(r', fixed, createIoRoute)
    requires InSync(agent, r, fixed) && PublishesRoutes(r, r', events, fixed)
    ensures InSync(agent.(channel := agent.channel + events), r', fixed)
  {
    hide AsMap, Mirrors, Consistent, Replay, Resolved, DistinctNodes, AllRespect, Observes;
    var during := (s: Uuid) => RouteDuring(r.routes, r'.routes, fixed, s);
    var olds, news := AsMap(r.associations).Keys, AsMap(r'.associations).Keys;
    var st := HandleAll(agent.Points(), agent.state, agent.channel);
    SameRoutesMirrored(agent.Points(), st, olds, RouteOf(r, fixed), during);
    HandleAllAppend(agent.Points(), agent.state, agent.channel, events);
    HandleAllMirrors(agent.Points(), st, olds, during, events);
    SameRoutesMirrored(agent.Points(), HandleAll(agent.Points(), st, events), news, during, RouteOf(r', fixed));
  }

  lemma DeliveryKeepsSync(agent: Agent, agent': Agent, r: RouterState, fixed: Uuid -> Option<string>)
    requires DistinctPairs(r.associations) && InSync(agent, r, fixed) && agent.channel != []
    requires Receives(agent, agent')
    ensures InSync(agent', r, fixed)
  {
    hide AsMap, Mirrors, Consistent, Handle, Observes;
    HandleKeepsConsistent(agent.Points(), agent.state, agent.channel[0]);
    HandleAllAppend(agent.Points(), agent.state, [agent.channel[0]], agent.channel[1..]);
    assert agent.channel == [agent.channel[0]] + agent.channel[1..];
    var single := [agent.channel[0]];
    assert single[..|single| - 1] == [];
    assert HandleAll(agent.Points(), agent.state, single) == Handle(agent.Points(), agent.state, agent.channel[0]);
  }

  lemma NextKeepsInv(sys: System, step: Step, sys': System, fixed: Uuid -> Option<string>,
                     createIoRoute: Uuid -> string)
    requires Inv(sys, fixed, createIoRoute) && Next(sys, step, sys', createIoRoute)
    requires step.Router? && step.op.NodeAdvertised? ==>
               Respects(sys.router.nodes, step.op.node, fixed, createIoRoute)
    ensures Inv(sys', fixed, createIoRoute)
  {
    hide InSync, Performs, PublishesRoutes, Receives, Respects, Resolved, DistinctPairs, DistinctNodes, AllRespect,
        AsMap, RoutesOk;
    match step
    case Router(op) =>
      var events :| Performs(sys.router, op, sys'.router, events, createIoRoute) && Published(sys, sys', events);
      PerformsKeepsRouterOk(sys.router, op, sys'.router, events, fixed, createIoRoute);
      forall i | i in sys'.agents
        ensures InSync(sys'.agents[i], sys'.router, fixed)
      {
        RouterStepKeepsSync(sys.agents[i], sys.router, sys'.router, events, fixed, createIoRoute);
      }
    case Deliver(id) =>
      DeliveryKeepsSync(sys.agents[id], sys'.agents[id], sys.router, fixed);
  }

  lemma InitInv(sys: System, fixed: Uuid -> Option<string>, createIoRoute: Uuid -> string)
    requires Init(sys)
    ensures Inv(sys, fixed, createIoRoute)
  {
    hide Resolved;
    NothingResolved(sys.router.Config());
    assert AsMap([]) == map[];
  }

  /**
   * In every reachable state of every respectful run, each agent plus its undelivered events
   * equals the router's view of the agent's own sources and actors, on the routes of the
   * sources; and the router's associations are exactly those its rules ask for.
   */
  lemma {:induction false} AgentsMirrorRouter(trace: seq<System>, steps: seq<Step>, k: nat,
          fixed: Uuid -> Option<string>, createIoRoute: Uuid -> string)
    requires IsRun(trace, steps, createIoRoute) && k < |trace|
    requires IsRespectful(trace, steps, fixed, createIoRoute)
    ensures DistinctPairs(trace[k].router.associations)
    ensures forall i <- trace[k].agents :: InSync(trace[k].agents[i], trace[k].router, fixed)
    ensures Resolved(trace[k].router.Config(), AsMap(trace[k].router.associations))
    ensures forall x <- trace[k].router.associations ::
              x.source.valueType == x.actor.valueType && x.source.useRawIoValues == x.actor.useRawIoValues
    ensures Inv(trace[k], fixed, createIoRoute)
  {
    hide InSync, Next, Init, Resolved, Respects, DistinctPairs, AsMap;
    if k == 0 {
      InitInv(trace[0], fixed, createIoRoute);
    } else {
      AgentsMirrorRouter(trace, steps, k - 1, fixed, createIoRoute);
      NextKeepsInv(trace[k - 1], steps[k - 1], trace[k], fixed, createIoRoute);
    }
    AssociationsFit(trace[k].router.Config(), trace[k].router.associations);
  }

  /**
   * Why the router has to keep the route of an associated source: an event that moves a
   * source to another route makes its agent forget every other actor of that source.
   */
  lemma ReroutingLosesActors(points: set<Uuid>, st: AgentState, e: AssociateEvent, r: string, a: Uuid)
    requires Consistent(points, st) && e.sourceId in points && Reroutes(st, e.sourceId, e.route)
    ensures Feeds(Handle(points, st, e).sources, e.sourceId, r, a) <==> a == e.actorId && e.route == Some(r)
  {
    UpdateSourceFeeds(st, e.sourceId, e.actorId, e.route, e.updateRate);
  }
}

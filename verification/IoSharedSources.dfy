/**
 * Exactly when agents mirror the router although several nodes may have sources with the
 * same id: iff sources with the same id that different nodes may advertise name the same
 * route.
 */
module IoSharedSources {
  import opened Prelude
  import opened IoModel
  import opened IoRules
  import opened RuleBasedIoRouter
  import opened IoAgent
  import opened IoRouting

  /** Which sources the node with a given id may advertise. */
  type Advertisable = (Uuid, IoSource) -> bool

  ghost predicate AreAdvertisable(node: IoNode, allowed: Advertisable) {
    forall p <- node.ioSources :: allowed(node.objectId, p)
  }

  /** The run advertises nodes with such sources only; actors, rules and all else are arbitrary. */
  ghost predicate AdvertisesOnly(steps: seq<Step>, allowed: Advertisable) {
    forall k | 0 <= k < |steps| && steps[k].Router? && steps[k].op.NodeAdvertised? ::
      AreAdvertisable(steps[k].op.node, allowed)
  }

  ghost predicate IsShared(allowed: Advertisable, m: Uuid, n: Uuid, p: IoSource, q: IoSource) {
    allowed(m, p) && allowed(n, q) && m != n && p.objectId == q.objectId
  }

  /** Sources with the same id on different nodes get the same route. */
  ghost predicate RoutesAgree(allowed: Advertisable, createIoRoute: Uuid -> string) {
    forall m, n, p, q | IsShared(allowed, m, n, p, q) ::
      FreshRoute(p, createIoRoute) == FreshRoute(q, createIoRoute)
  }

  /** Once it has handled what is on its way to it, the agent mirrors the router, with one route per source. */
  ghost predicate IsMirrored(agent: Agent, r: RouterState) {
    && DistinctPairs(r.associations)
    && exists routeOf: Uuid -> string ::
         Mirrors(agent.Points(), HandleAll(agent.Points(), agent.state, agent.channel), AsMap(r.associations).Keys,
             routeOf)
  }

  ghost predicate AllMirrored(sys: System) {
    forall i <- sys.agents :: IsMirrored(sys.agents[i], sys.router)
  }

  // ---------------------------------------------------------------- agreeing routes

  /** The route of the sources with an id that different nodes may advertise. */
  ghost function SharedRoute(allowed: Advertisable, createIoRoute: Uuid -> string, s: Uuid): Option<string> {
    if exists m, n, p, q :: IsShared(allowed, m, n, p, q) && p.objectId == s then
      var m, n, p, q :| IsShared(allowed, m, n, p, q) && p.objectId == s;
      Some(FreshRoute(p, createIoRoute))
    else None
  }

  lemma SharedRouteGiven(allowed: Advertisable, createIoRoute: Uuid -> string, k: Uuid, x: IoSource)
    requires RoutesAgree(allowed, createIoRoute) && allowed(k, x)
    ensures var route := SharedRoute(allowed, createIoRoute, x.objectId);
            if route.Some? then FreshRoute(x, createIoRoute) == route.value
            else forall n, q | allowed(n, q) && q.objectId == x.objectId :: n == k
  {
    hide FreshRoute;
    var s := x.objectId;
    if SharedRoute(allowed, createIoRoute, s).Some? {
      var m, n, p, q :| IsShared(allowed, m, n, p, q) && p.objectId == s &&
        SharedRoute(allowed, createIoRoute, s).value == FreshRoute(p, createIoRoute);
      assert k == m ==> IsShared(allowed, k, n, x, q);
      assert k != m ==> IsShared(allowed, k, m, x, p);
      assert IsShared(allowed, m, n, p, q);
    } else {
      forall n, q | allowed(n, q) && q.objectId == s
        ensures n == k
      {
        assert n != k ==> IsShared(allowed, n, k, q, x);
      }
    }
  }

  lemma AdvertisableRespects(allowed: Advertisable, createIoRoute: Uuid -> string, nodes: seq<IoNode>, node: IoNode)
    requires RoutesAgree(allowed, createIoRoute)
    requires AreAdvertisable(node, allowed) && forall n <- nodes :: AreAdvertisable(n, allowed)
    ensures Respects(nodes, node, (s: Uuid) => SharedRoute(allowed, createIoRoute, s), createIoRoute)
  {
    hide FreshRoute, SharedRoute, RoutesAgree;
    forall p | p in node.ioSources
      ensures match SharedRoute(allowed, createIoRoute, p.objectId)
              case Some(route) => FreshRoute(p, createIoRoute) == route
              case None => forall n <- nodes | n.objectId != node.objectId :: !HasSource(n, p.objectId)
    {
      SharedRouteGiven(allowed, createIoRoute, node.objectId, p);
    }
  }

  /** Only advertised nodes are managed. */
  lemma {:induction false} ManagedAreAdvertisable(trace: seq<System>, steps: seq<Step>, k: nat,
          createIoRoute: Uuid -> string, allowed: Advertisable)
    requires IsRun(trace, steps, createIoRoute) && k < |trace| && AdvertisesOnly(steps, allowed)
    ensures DistinctNodes(trace[k].router.nodes)
    ensures forall n <- trace[k].router.nodes :: AreAdvertisable(n, allowed)
  {
    hide Performs, AreAdvertisable, DistinctNodes, Receives, DistinctPairs;
    if k > 0 {
      ManagedAreAdvertisable(trace, steps, k - 1, createIoRoute, allowed);
      var before, step := trace[k - 1], steps[k - 1];
      assert Next(before, step, trace[k], createIoRoute);
      if step.Router? {
        var events :| Performs(before.router, step.op, trace[k].router, events, createIoRoute) &&
          Published(before, trace[k], events);
        ManagedNodesFollow(before.router, step.op, trace[k].router, events, createIoRoute);
      }
    } else {
      NoNodes(trace[0].router, allowed);
    }
  }

  lemma NoNodes(r: RouterState, allowed: Advertisable)
    requires r.nodes == []
    ensures DistinctNodes(r.nodes) && forall n <- r.nodes :: AreAdvertisable(n, allowed)
  {
  }

  lemma AgreementMirrors(trace: seq<System>, steps: seq<Step>, k: nat, createIoRoute: Uuid -> string,
                         allowed: Advertisable)
    requires IsRun(trace, steps, createIoRoute) && k < |trace| && AdvertisesOnly(steps, allowed)
    requires RoutesAgree(allowed, createIoRoute)
    ensures AllMirrored(trace[k])
  {
    hide Next, Init, RoutesAgree, SharedRoute, Respects, Resolved, Consistent, Mirrors, AreAdvertisable, Observes,
        AsMap, DistinctPairs, Inv;
    var fixed := (s: Uuid) => SharedRoute(allowed, createIoRoute, s);
    forall j | 0 <= j < |steps| && steps[j].Router? && steps[j].op.NodeAdvertised?
      ensures Respects(trace[j].router.nodes, steps[j].op.node, fixed, createIoRoute)
    {
      ManagedAreAdvertisable(trace, steps, j, createIoRoute, allowed);
      AdvertisableRespects(allowed, createIoRoute, trace[j].router.nodes, steps[j].op.node);
    }
    AgentsMirrorRouter(trace, steps, k, fixed, createIoRoute);
    forall i | i in trace[k].agents
      ensures IsMirrored(trace[k].agents[i], trace[k].router)
    {
      assert InSync(trace[k].agents[i], trace[k].router, fixed);
    }
  }

  // ---------------------------------------------------------------- conflicting routes

  const ALWAYS: Condition := (source, sourceNode, actor, actorNode, context) => true
  const RULES: map<string, seq<Condition>> := map["" := [ALWAYS]]
  const CONTEXT := IoContext("context", "")

  /** An actor that fits the source, without an update rate of its own. */
  function FittingActor(p: IoSource, suffix: char): IoActor {
    IoActor(p.objectId + [suffix], p.valueType, p.useRawIoValues, None)
  }

  function AssociateOn(p: IoSource, a: IoActor, route: string): AssociateEvent {
    AssociateEvent(p.objectId, a.objectId, Some(route), p.updateRate)
  }

  /** A router whose rules associate all fitting points. */
  function Associating(nodes: seq<IoNode>, routes: map<Uuid, string>, associations: seq<Association>): RouterState {
    RouterState(CONTEXT, nodes, routes, RULES, associations)
  }

  /** If one source is managed and all actors fit it, it is associated with each of them at its own rate. */
  lemma AllFitting(nodes: seq<IoNode>, source: IoSource, node: IoNode, m: map<Pair, Association>)
    requires SourceTable(nodes) == map[source.objectId := (source, node)]
    requires forall a <- ActorTable(nodes) ::
               Compatible(source, ActorTable(nodes)[a].0) && ActorTable(nodes)[a].0.updateRate == None
    requires forall p :: p in m <==> p.0 == source.objectId && p.1 in ActorTable(nodes)
    requires forall p <- m :: m[p] == Association(source, ActorTable(nodes)[p.1].0, source.updateRate)
    ensures Resolved(Config(nodes, RULES, CONTEXT), m)
  {
    hide SourceTable, ActorTable;
    var cfg := Config(nodes, RULES, CONTEXT);
    assert ALWAYS in Applicable(RULES, source.valueType);
    forall p
      ensures p in m <==> Wanted(cfg, p)
    {
      if p in m {
        var (actor, actorNode) := ActorTable(nodes)[p.1];
        assert ALWAYS(source, node, actor, actorNode, CONTEXT);
      }
    }
    forall p | p in m
      ensures IsMaxRate(m[p].rate, RatesAround(m, p.0))
    {
      assert m[p].source.updateRate in RatesAround(m, p.0);
    }
  }

  lemma Tables(node: IoNode, last: IoNode)
    ensures SourceTable([node]) == AddSources(map[], node, node.ioSources)
    ensures ActorTable([node]) == AddActors(map[], node, node.ioActors)
    ensures SourceTable([node, last]) == AddSources(SourceTable([node]), last, last.ioSources)
    ensures ActorTable([node, last]) == AddActors(ActorTable([node]), last, last.ioActors)
  {
    assert [node][..0] == [] && [node, last][..1] == [node];
  }

  lemma AddOneEach(sources: map<Uuid, (IoSource, IoNode)>, actors: map<Uuid, (IoActor, IoNode)>, node: IoNode,
                   p: IoSource, a: IoActor)
    ensures AddSources(sources, node, [p]) == sources[p.objectId := (p, node)]
    ensures AddActors(actors, node, [a]) == actors[a.objectId := (a, node)]
    ensures AddSources(sources, node, []) == sources && AddActors(actors, node, []) == actors
  {
    assert [p][..0] == [] && [a][..0] == [];
  }

  /** Deregistering one node id. */
  lemma DeregisterOne(nodes: seq<IoNode>, routes: map<Uuid, string>, id: Uuid, node: IoNode)
    ensures var i := NodeIndex(nodes, id);
            Deregister(nodes, routes, [id], Some(node)) ==
            if i == -1 then (nodes, routes)
            else (RemoveAt(nodes, i), DropRoutes(routes, nodes[i].ioSources, Some(node)))
  {
    assert [id][..0] == [];
  }

  /** An evaluation that changes one pair announces it alone. */
  lemma AnnouncedAlone(before: map<Pair, Association>, after: map<Pair, Association>, routes: map<Uuid, string>,
                       routes': map<Uuid, string>, createIoRoute: Uuid -> string, e: AssociateEvent)
    requires ChangeFor(before, after, routes, createIoRoute, e.Pair()) == Some(e)
    requires forall p | p != e.Pair() :: ChangeFor(before, after, routes, createIoRoute, p) == None
    requires routes' == if e.route.Some? then routes[e.sourceId := e.route.value] else routes
    requires e.route.Some? && e.sourceId in routes ==> routes[e.sourceId] == e.route.value
    ensures Announces([e], before, after, routes, createIoRoute, before.Keys + after.Keys)
    ensures RoutesFollow(routes, routes', [e])
  {
    assert [e][0] == e;
  }

  lemma NothingToAnnounce(m: map<Pair, Association>, routes: map<Uuid, string>, createIoRoute: Uuid -> string)
    ensures Announces([], m, m, routes, createIoRoute, m.Keys + m.Keys) && RoutesFollow(routes, routes, [])
  {
  }

  lemma OnePair(x: Association)
    ensures DistinctPairs([x]) && AsMap([x]) == map[x.Pair() := x]
    ensures DistinctPairs([]) && AsMap([]) == map[]
  {
    assert [x][0] == x;
  }

  lemma TwoPairs(x: Association, y: Association)
    requires x.Pair() != y.Pair()
    ensures DistinctPairs([x, y]) && AsMap([x, y]) == map[x.Pair() := x, y.Pair() := y]
  {
    assert [x, y][0] == x && [x, y][1] == y;
  }

  /** Two nodes and two sources with one id and different routes. */
  datatype Conflict = Conflict(m: Uuid, n: Uuid, p: IoSource, q: IoSource) {
    ghost predicate Holds(createIoRoute: Uuid -> string) {
      m != n && p.objectId == q.objectId && FreshRoute(p, createIoRoute) != FreshRoute(q, createIoRoute)
    }
    function A(): IoActor { FittingActor(p, 'a') }
    function B(): IoActor { FittingActor(q, 'b') }
    function C(): IoActor { FittingActor(q, 'c') }
    function First(): IoNode { IoNode(m, [p], [A()]) }
    function Second(): IoNode { IoNode(m, [p], []) }
    function Third(): IoNode { IoNode(n, [q], [B()]) }
    function Fourth(): IoNode { IoNode(m, [], [C()]) }

    /** What the router is asked to do: all points fit; node `m` gives its source up while node `n` has it. */
    function Steps(): seq<Step> {
      [ Router(RulesDefined([IoRule("", Some(ALWAYS))])), Router(NodeAdvertised(First())),
        Router(NodeAdvertised(Second())), Router(NodeAdvertised(Third())), Router(NodeAdvertised(Fourth())) ]
    }

    function Route(createIoRoute: Uuid -> string): string { FreshRoute(p, createIoRoute) }
    function OtherRoute(createIoRoute: Uuid -> string): string { FreshRoute(q, createIoRoute) }

    function Events(createIoRoute: Uuid -> string): seq<seq<AssociateEvent>> {
      [ [], [AssociateOn(p, A(), Route(createIoRoute))], [AssociateEvent(p.objectId, A().objectId, None, None)],
        [AssociateOn(q, B(), Route(createIoRoute))], [AssociateOn(q, C(), OtherRoute(createIoRoute))] ]
    }

    function Routers(createIoRoute: Uuid -> string): seq<RouterState> {
      var routes := map[p.objectId := Route(createIoRoute)];
      [ RouterState(CONTEXT, [], map[], map[], []),
        Associating([], map[], []),
        Associating([First()], routes, [Association(p, A(), p.updateRate)]),
        Associating([Second()], routes, []),
        Associating([Second(), Third()], routes, [Association(q, B(), q.updateRate)]),
        Associating([Third(), Fourth()], map[p.objectId := OtherRoute(createIoRoute)],
          [Association(q, B(), q.updateRate), Association(q, C(), q.updateRate)]) ]
    }
  }

  lemma OneRule()
    ensures RuleTable([IoRule("", Some(ALWAYS))]) == RULES
  {
    assert [IoRule("", Some(ALWAYS))][..0] == [];
    assert [] + [ALWAYS] == [ALWAYS];
  }

  lemma RulesStep(c: Conflict, createIoRoute: Uuid -> string)
    ensures var rs := c.Routers(createIoRoute);
            DistinctPairs(rs[0].associations) && Performs(rs[0], c.Steps()[0].op, rs[1], [], createIoRoute)
  {
    hide Resolved, Announces, RoutesFollow, RuleTable, AsMap, DistinctPairs, FreshRoute;
    OneRule();
    NothingResolved(Config([], RULES, CONTEXT));
    OnePair(Association(c.p, c.A(), None));
    NothingToAnnounce(map[], map[], createIoRoute);
  }

  lemma FirstAssociated(c: Conflict)
    ensures var x := Association(c.p, c.A(), c.p.updateRate);
            Resolved(Config([c.First()], RULES, CONTEXT), map[x.Pair() := x])
    ensures Deregister([], map[], [c.m], Some(c.First())) == ([], map[])
  {
    hide Resolved, SourceTable, ActorTable, AddSources, AddActors, Deregister;
    var x := Association(c.p, c.A(), c.p.updateRate);
    DeregisterOne([], map[], c.m, c.First());
    Tables(c.First(), c.First());
    AddOneEach(map[], map[], c.First(), c.p, c.A());
    AllFitting([c.First()], c.p, c.First(), map[x.Pair() := x]);
  }

  lemma FirstStep(c: Conflict, createIoRoute: Uuid -> string)
    requires c.Holds(createIoRoute)
    ensures var rs := c.Routers(createIoRoute);
            && DistinctPairs(rs[1].associations)
            && Performs(rs[1], c.Steps()[1].op, rs[2], c.Events(createIoRoute)[1], createIoRoute)
  {
    hide Resolved, Announces, RoutesFollow, Deregister, AsMap, DistinctPairs, FreshRoute;
    var x := Association(c.p, c.A(), c.p.updateRate);
    FirstAssociated(c);
    assert [] + [c.First()] == [c.First()];
    OnePair(x);
    AnnouncedAlone(map[], map[x.Pair() := x], map[], map[c.p.objectId := c.Route(createIoRoute)], createIoRoute,
      c.Events(createIoRoute)[1][0]);
  }

  lemma NoneAssociated(c: Conflict, route: string)
    ensures Resolved(Config([c.Second()], RULES, CONTEXT), map[])
    ensures Deregister([c.First()], map[c.p.objectId := route], [c.m], Some(c.Second())) ==
            ([], map[c.p.objectId := route])
  {
    hide Resolved, SourceTable, ActorTable, AddSources, AddActors, Deregister;
    var routes := map[c.p.objectId := route];
    DeregisterOne([c.First()], routes, c.m, c.Second());
    assert c.Second().ioSources[0] == c.p;
    assert DropRoutes(routes, [c.p], Some(c.Second())) == routes;
    Tables(c.Second(), c.Second());
    AddOneEach(map[], map[], c.Second(), c.p, c.A());
    AllFitting([c.Second()], c.p, c.Second(), map[]);
  }

  lemma SecondStep(c: Conflict, createIoRoute: Uuid -> string)
    requires c.Holds(createIoRoute)
    ensures var rs := c.Routers(createIoRoute);
            && DistinctPairs(rs[2].associations)
            && Performs(rs[2], c.Steps()[2].op, rs[3], c.Events(createIoRoute)[2], createIoRoute)
  {
    hide Resolved, Announces, RoutesFollow, Deregister, AsMap, DistinctPairs, FreshRoute;
    var x := Association(c.p, c.A(), c.p.updateRate);
    var routes := map[c.p.objectId := c.Route(createIoRoute)];
    NoneAssociated(c, c.Route(createIoRoute));
    assert [] + [c.Second()] == [c.Second()];
    OnePair(x);
    AnnouncedAlone(map[x.Pair() := x], map[], routes, routes, createIoRoute, c.Events(createIoRoute)[2][0]);
  }

  lemma SecondSourceAssociated(c: Conflict, route: string)
    requires c.m != c.n && c.p.objectId == c.q.objectId
    ensures var x := Association(c.q, c.B(), c.q.updateRate);
            Resolved(Config([c.Second(), c.Third()], RULES, CONTEXT), map[x.Pair() := x])
    ensures Deregister([c.Second()], map[c.p.objectId := route], [c.n], Some(c.Third())) ==
            ([c.Second()], map[c.p.objectId := route])
  {
    hide Resolved, SourceTable, ActorTable, AddSources, AddActors, Deregister;
    var x := Association(c.q, c.B(), c.q.updateRate);
    DeregisterOne([c.Second()], map[c.p.objectId := route], c.n, c.Third());
    Tables(c.Second(), c.Third());
    AddOneEach(map[], map[], c.Second(), c.p, c.A());
    AddOneEach(SourceTable([c.Second()]), map[], c.Third(), c.q, c.B());
    AllFitting([c.Second(), c.Third()], c.q, c.Third(), map[x.Pair() := x]);
  }

  lemma ThirdStep(c: Conflict, createIoRoute: Uuid -> string)
    requires c.Holds(createIoRoute)
    ensures var rs := c.Routers(createIoRoute);
            && DistinctPairs(rs[3].associations)
            && Performs(rs[3], c.Steps()[3].op, rs[4], c.Events(createIoRoute)[3], createIoRoute)
  {
    hide Resolved, Announces, RoutesFollow, Deregister, AsMap, DistinctPairs, FreshRoute;
    var x := Association(c.q, c.B(), c.q.updateRate);
    var routes := map[c.p.objectId := c.Route(createIoRoute)];
    SecondSourceAssociated(c, c.Route(createIoRoute));
    assert [c.Second()] + [c.Third()] == [c.Second(), c.Third()];
    OnePair(x);
    AnnouncedAlone(map[], map[x.Pair() := x], routes, routes, createIoRoute, c.Events(createIoRoute)[3][0]);
  }

  /** Node `m` gives its source up: the router forgets the route of that source. */
  lemma RouteForgotten(c: Conflict, route: string)
    requires c.m != c.n
    ensures Deregister([c.Second(), c.Third()], map[c.p.objectId := route], [c.m], Some(c.Fourth())) ==
            ([c.Third()], map[])
  {
    hide Deregister;
    var routes := map[c.p.objectId := route];
    DeregisterOne([c.Second(), c.Third()], routes, c.m, c.Fourth());
    assert [c.p][0] == c.p;
    assert DropRoutes(routes, [c.p], Some(c.Fourth())) == map[];
    assert RemoveAt([c.Second(), c.Third()], 0) == [c.Third()];
  }

  lemma BothAssociated(c: Conflict)
    ensures var x, y := Association(c.q, c.B(), c.q.updateRate), Association(c.q, c.C(), c.q.updateRate);
            && x.Pair() != y.Pair()
            && Resolved(Config([c.Third(), c.Fourth()], RULES, CONTEXT), map[x.Pair() := x, y.Pair() := y])
  {
    hide Resolved, SourceTable, ActorTable, AddSources, AddActors;
    var x, y := Association(c.q, c.B(), c.q.updateRate), Association(c.q, c.C(), c.q.updateRate);
    Tables(c.Third(), c.Fourth());
    AddOneEach(map[], map[], c.Third(), c.q, c.B());
    AddOneEach(SourceTable([c.Third()]), ActorTable([c.Third()]), c.Fourth(), c.q, c.C());
    assert x.Pair().1[|c.q.objectId|] != y.Pair().1[|c.q.objectId|];
    AllFitting([c.Third(), c.Fourth()], c.q, c.Third(), map[x.Pair() := x, y.Pair() := y]);
  }

  lemma FourthStep(c: Conflict, createIoRoute: Uuid -> string)
    requires c.Holds(createIoRoute)
    ensures var rs := c.Routers(createIoRoute);
            && DistinctPairs(rs[4].associations)
            && Performs(rs[4], c.Steps()[4].op, rs[5], c.Events(createIoRoute)[4], createIoRoute)
  {
    hide Resolved, Announces, RoutesFollow, Deregister, AsMap, DistinctPairs, FreshRoute;
    var x, y := Association(c.q, c.B(), c.q.updateRate), Association(c.q, c.C(), c.q.updateRate);
    RouteForgotten(c, c.Route(createIoRoute));
    BothAssociated(c);
    assert [c.Third()] + [c.Fourth()] == [c.Third(), c.Fourth()];
    OnePair(x);
    TwoPairs(x, y);
    AnnouncedAlone(map[x.Pair() := x], map[x.Pair() := x, y.Pair() := y], map[],
      map[c.p.objectId := c.OtherRoute(createIoRoute)], createIoRoute, c.Events(createIoRoute)[4][0]);
  }

  lemma StepPerformed(c: Conflict, createIoRoute: Uuid -> string, k: nat)
    requires c.Holds(createIoRoute) && k < 5
    ensures var rs := c.Routers(createIoRoute);
            && DistinctPairs(rs[k].associations)
            && Performs(rs[k], c.Steps()[k].op, rs[k + 1], c.Events(createIoRoute)[k], createIoRoute)
  {
    hide Performs, DistinctPairs;
    match k
    case 0 => RulesStep(c, createIoRoute);
    case 1 => FirstStep(c, createIoRoute);
    case 2 => SecondStep(c, createIoRoute);
    case 3 => ThirdStep(c, createIoRoute);
    case _ => FourthStep(c, createIoRoute);
  }

  /** The events of the first steps, on their way to the agents. */
  function Waiting(c: Conflict, createIoRoute: Uuid -> string, k: nat): seq<AssociateEvent>
    requires k <= 5
  {
    if k == 0 then [] else Waiting(c, createIoRoute, k - 1) + c.Events(createIoRoute)[k - 1]
  }

  /** The run has one agent, which has the source. */
  function ConflictTrace(c: Conflict, createIoRoute: Uuid -> string): (trace: seq<System>)
    ensures |trace| == 6
  {
    seq(6, k requires 0 <= k < 6 =>
      System(c.Routers(createIoRoute)[k],
             map[0 := Agent(map[c.p.objectId := false], INITIAL, [], Waiting(c, createIoRoute, k))]))
  }

  /** Publishing to the one agent. */
  lemma PublishedToOne(r: RouterState, r': RouterState, op: RouterOp, s: Uuid, waiting: seq<AssociateEvent>,
                       events: seq<AssociateEvent>, createIoRoute: Uuid -> string)
    requires r'.context == CONTEXT && !op.ContextChanged?
    requires DistinctPairs(r.associations) && Performs(r, op, r', events, createIoRoute)
    ensures Next(System(r, map[0 := Agent(map[s := false], INITIAL, [], waiting)]), Router(op),
                 System(r', map[0 := Agent(map[s := false], INITIAL, [], waiting + events)]), createIoRoute)
  {
    hide Performs, DistinctPairs;
    var sys := System(r, map[0 := Agent(map[s := false], INITIAL, [], waiting)]);
    var sys' := System(r', map[0 := Agent(map[s := false], INITIAL, [], waiting + events)]);
    assert Transmitted(CONTEXT.name, events) == events;
    assert Published(sys, sys', events);
  }

  lemma SameContext(c: Conflict, createIoRoute: Uuid -> string, k: nat)
    requires k < 5
    ensures c.Routers(createIoRoute)[k + 1].context == CONTEXT
    ensures c.Steps()[k].Router? && !c.Steps()[k].op.ContextChanged?
  {
  }

  lemma ConflictRuns(c: Conflict, createIoRoute: Uuid -> string)
    requires c.Holds(createIoRoute)
    ensures IsRun(ConflictTrace(c, createIoRoute), c.Steps(), createIoRoute)
  {
    var trace := ConflictTrace(c, createIoRoute);
    assert Init(trace[0]);
    hide Performs, DistinctPairs, Next, FreshRoute, Init;
    forall k | 0 <= k < 5
      ensures Next(trace[k], c.Steps()[k], trace[k + 1], createIoRoute)
    {
      StepPerformed(c, createIoRoute, k);
      SameContext(c, createIoRoute, k);
      var rs := c.Routers(createIoRoute);
      PublishedToOne(rs[k], rs[k + 1], c.Steps()[k].op, c.p.objectId, Waiting(c, createIoRoute, k),
        c.Events(createIoRoute)[k], createIoRoute);
    }
  }

  lemma ReplayNext(pairs: set<Pair>, events: seq<AssociateEvent>, e: AssociateEvent)
    ensures Replay(pairs, events + [e]) == Apply(Replay(pairs, events), e)
  {
    assert (events + [e])[..|events|] == events;
  }

  /** Before the last step the source is on its first route, for its second actor. */
  lemma OnFirstRoute(c: Conflict, createIoRoute: Uuid -> string)
    requires c.Holds(createIoRoute)
    ensures var points, s := {c.p.objectId}, c.p.objectId;
            var st := HandleAll(points, INITIAL, Waiting(c, createIoRoute, 4));
            && Consistent(points, st) && s in st.sources && st.sources[s].route == c.Route(createIoRoute)
  {
    hide HandleAll, Replay, FreshRoute, Handle;
    var points, s := {c.p.objectId}, c.p.objectId;
    var routeOf := (t: Uuid) => c.Route(createIoRoute);
    var e := c.Events(createIoRoute);
    var w3, w4 := Waiting(c, createIoRoute, 3), Waiting(c, createIoRoute, 4);
    assert w4 == w3 + [e[3][0]];
    ReplayNext({}, w3, e[3][0]);
    HandleNothing(points, routeOf);
    WaitOnFirstRoute(c, createIoRoute);
    HandleAllMirrors(points, INITIAL, {}, routeOf, w4);
    assert (s, c.B().objectId) in Replay({}, w4);
    assert Feeds(HandleAll(points, INITIAL, w4).sources, s, c.Route(createIoRoute), c.B().objectId);
  }

  lemma WaitOnFirstRoute(c: Conflict, createIoRoute: Uuid -> string)
    requires c.Holds(createIoRoute)
    ensures forall e <- Waiting(c, createIoRoute, 4) :: OnRoute(e, (t: Uuid) => c.Route(createIoRoute))
  {
    var e := c.Events(createIoRoute);
    assert Waiting(c, createIoRoute, 2) == Waiting(c, createIoRoute, 1) + e[1];
    assert Waiting(c, createIoRoute, 1) == Waiting(c, createIoRoute, 0) + e[0];
  }

  lemma HandleNothing(points: set<Uuid>, routeOf: Uuid -> string)
    ensures Consistent(points, INITIAL) && Mirrors(points, INITIAL, {}, routeOf)
  {
  }

  /** In the end the agent of the source has lost an actor that the router still associates with it. */
  lemma ConflictLosesActor(c: Conflict, createIoRoute: Uuid -> string)
    requires c.Holds(createIoRoute)
    ensures !AllMirrored(ConflictTrace(c, createIoRoute)[5])
  {
    hide HandleAll, FreshRoute, Handle, Consistent, AsMap, DistinctPairs;
    var points, s, b := {c.p.objectId}, c.p.objectId, c.B().objectId;
    var sys := ConflictTrace(c, createIoRoute)[5];
    var agent := sys.agents[0];
    var w, e := Waiting(c, createIoRoute, 4), c.Events(createIoRoute)[4];
    assert agent.channel == w + [e[0]] && (w + [e[0]])[..|w|] == w;
    HandleAllNext(points, INITIAL, w, e[0]);
    OnFirstRoute(c, createIoRoute);
    assert b[|s|] != c.C().objectId[|s|];
    var x, y := Association(c.q, c.B(), c.q.updateRate), Association(c.q, c.C(), c.q.updateRate);
    TwoPairs(x, y);
    assert (s, b) in AsMap([x, y]).Keys;
    assert agent.Points() == points;
    if IsMirrored(agent, sys.router) {
      var routeOf: Uuid -> string :| Mirrors(points, HandleAll(points, INITIAL, agent.channel),
        AsMap(sys.router.associations).Keys, routeOf);
      ReroutingLosesActors(points, HandleAll(points, INITIAL, w), e[0], routeOf(s), b);
      assert false;
    }
  }

  lemma HandleAllNext(points: set<Uuid>, st: AgentState, events: seq<AssociateEvent>, e: AssociateEvent)
    ensures HandleAll(points, st, events + [e]) == Handle(points, HandleAll(points, st, events), e)
  {
    assert (events + [e])[..|events|] == events;
  }

  // ---------------------------------------------------------------- the exact condition

  /**
   * In all runs that advertise only such sources, all agents mirror the router at all times
   * iff sources with the same id that different nodes may advertise get the same route.
   */
  lemma MirroringNeedsAgreement(allowed: Advertisable, createIoRoute: Uuid -> string)
    ensures (forall trace: seq<System>, steps: seq<Step>, k: nat
               | IsRun(trace, steps, createIoRoute) && AdvertisesOnly(steps, allowed) && k < |trace| ::
               AllMirrored(trace[k]))
            <==> RoutesAgree(allowed, createIoRoute)
  {
    hide IsRun, AllMirrored, FreshRoute;
    if RoutesAgree(allowed, createIoRoute) {
      forall trace: seq<System>, steps: seq<Step>, k: nat
        | IsRun(trace, steps, createIoRoute) && AdvertisesOnly(steps, allowed) && k < |trace|
        ensures AllMirrored(trace[k])
      {
        AgreementMirrors(trace, steps, k, createIoRoute, allowed);
      }
    } else {
      var m, n, p, q :| IsShared(allowed, m, n, p, q) &&
        FreshRoute(p, createIoRoute) != FreshRoute(q, createIoRoute);
      var c := Conflict(m, n, p, q);
      ConflictRuns(c, createIoRoute);
      ConflictLosesActor(c, createIoRoute);
      assert AdvertisesOnly(c.Steps(), allowed);
      var trace := ConflictTrace(c, createIoRoute);
      assert !AllMirrored(trace[5]);
    }
  }
}

/**
 * Raw IO values: in every run, agents subscribe a route for raw values exactly if the source
 * that publishes on it publishes raw values, since only points that agree in this are associated.
 */
module IoRawValues {
  import opened Prelude
  import opened IoModel
  import opened IoRules
  import opened RuleBasedIoRouter
  import opened IoAgent
  import opened IoRouting

  /** The node's points use raw values as `raw` tells for their ids. */
  ghost predicate HasPoints(node: IoNode, raw: Uuid -> bool) {
    && (forall p <- node.ioSources :: p.useRawIoValues == raw(p.objectId))
    && (forall a <- node.ioActors :: a.useRawIoValues == raw(a.objectId))
  }

  /** So do all points that are ever advertised, and those of the agents. */
  ghost predicate UsesRaw(trace: seq<System>, steps: seq<Step>, raw: Uuid -> bool)
    requires |trace| == |steps| + 1
  {
    && (forall k | 0 <= k < |steps| && steps[k].Router? && steps[k].op.NodeAdvertised? ::
          HasPoints(steps[k].op.node, raw))
    && (forall i <- trace[0].agents, id <- trace[0].agents[i].ioPoints :: trace[0].agents[i].ioPoints[id] == raw(id))
  }

  /** A route is subscribed as the source that it belongs to uses it. */
  ghost predicate CallsAgree(calls: seq<BindingCall>, routeOf: Uuid -> string, raw: Uuid -> bool) {
    forall c <- calls | c.Subscribe? :: IsCallFor(c, routeOf, raw)
  }

  ghost predicate IsCallFor(c: BindingCall, routeOf: Uuid -> string, raw: Uuid -> bool) {
    exists s :: c == Subscribe(routeOf(s), raw(s))
  }

  /** Only points that agree in the use of raw values are associated, on the route of the source. */
  ghost predicate EventsAgree(events: seq<AssociateEvent>, routeOf: Uuid -> string, raw: Uuid -> bool) {
    forall e <- events | e.route.Some? :: e.route.value == routeOf(e.sourceId) && raw(e.sourceId) == raw(e.actorId)
  }

  ghost predicate AgentAgrees(agent: Agent, routeOf: Uuid -> string, raw: Uuid -> bool) {
    && (forall id <- agent.ioPoints :: agent.ioPoints[id] == raw(id))
    && CallsAgree(agent.calls, routeOf, raw)
    && EventsAgree(agent.channel, routeOf, raw)
  }

  ghost predicate AllAgree(sys: System, routeOf: Uuid -> string, raw: Uuid -> bool) {
    && (forall n <- sys.router.nodes :: HasPoints(n, raw))
    && (forall i <- sys.agents :: AgentAgrees(sys.agents[i], routeOf, raw))
  }

  ghost function Fixed(routeOf: Uuid -> string): Uuid -> Option<string> {
    (s: Uuid) => Some(routeOf(s))
  }

  /** Both points of an association are managed points, and so agree as they were advertised. */
  lemma AssociatedAgree(cfg: Config, m: map<Pair, Association>, raw: Uuid -> bool)
    requires Resolved(cfg, m) && forall n <- cfg.nodes :: HasPoints(n, raw)
    ensures forall p <- m :: raw(p.0) == raw(p.1)
  {
    hide Resolved, SourceTable, ActorTable;
    SourceTableKeyed(cfg.nodes);
    ActorTableKeyed(cfg.nodes);
    AssociatedPointsFit(cfg, m);
    forall p | p in m
      ensures raw(p.0) == raw(p.1)
    {
      ResolvedFromTables(cfg, m, p);
      assert HasPoints(SourceTable(cfg.nodes)[p.0].1, raw) && HasPoints(ActorTable(cfg.nodes)[p.1].1, raw);
    }
  }

  /** What an operation publishes agrees. */
  lemma PublishedAgree(r: RouterState, op: RouterOp, r': RouterState, events: seq<AssociateEvent>,
                       routeOf: Uuid -> string, raw: Uuid -> bool, createIoRoute: Uuid -> string)
    requires RouterOk(r, Fixed(routeOf), createIoRoute) && Performs(r, op, r', events, createIoRoute)
    requires op.NodeAdvertised? ==> Respects(r.nodes, op.node, Fixed(routeOf), createIoRoute) && HasPoints(op.node, raw)
    requires forall n <- r.nodes :: HasPoints(n, raw)
    ensures (forall n <- r'.nodes :: HasPoints(n, raw)) && EventsAgree(events, routeOf, raw)
  {
    hide Performs, Resolved, AsMap, DistinctPairs, DistinctNodes, AllRespect, Respects, HasPoints, RoutesOk, Replay;
    PerformsKeepsRouterOk(r, op, r', events, Fixed(routeOf), createIoRoute);
    ManagedNodesFollow(r, op, r', events, createIoRoute);
    AssociatedAgree(r'.Config(), AsMap(r'.associations), raw);
    forall e | e in events && e.route.Some?
      ensures e.route.value == routeOf(e.sourceId) && raw(e.sourceId) == raw(e.actorId)
    {
      assert e.Pair().0 == e.sourceId && e.Pair().1 == e.actorId;
    }
  }

  lemma MorePublished(agent: Agent, events: seq<AssociateEvent>, routeOf: Uuid -> string, raw: Uuid -> bool)
    requires AgentAgrees(agent, routeOf, raw) && EventsAgree(events, routeOf, raw)
    ensures AgentAgrees(agent.(channel := agent.channel + events), routeOf, raw)
  {
    hide CallsAgree;
  }

  /** Handling an event subscribes as the source of the event uses its route. */
  lemma ReceivedAgree(agent: Agent, agent': Agent, routeOf: Uuid -> string, raw: Uuid -> bool)
    requires AgentAgrees(agent, routeOf, raw) && agent.channel != [] && Receives(agent, agent')
    ensures AgentAgrees(agent', routeOf, raw)
  {
    hide Handle, Observes;
    var e := agent.channel[0];
    forall c | c in agent'.calls && c.Subscribe?
      ensures IsCallFor(c, routeOf, raw)
    {
      if c !in agent.calls {
        assert agent'.calls == agent.calls + agent'.calls[|agent.calls|..];
        assert c == Subscribe(routeOf(e.sourceId), raw(e.sourceId));
      }
    }
  }

  lemma NextAgree(sys: System, step: Step, sys': System, routeOf: Uuid -> string, raw: Uuid -> bool,
                  createIoRoute: Uuid -> string)
    requires AllAgree(sys, routeOf, raw) && RouterOk(sys.router, Fixed(routeOf), createIoRoute)
    requires Next(sys, step, sys', createIoRoute)
    requires step.Router? && step.op.NodeAdvertised? ==>
               Respects(sys.router.nodes, step.op.node, Fixed(routeOf), createIoRoute) && HasPoints(step.op.node, raw)
    ensures AllAgree(sys', routeOf, raw)
  {
    hide Performs, Respects, HasPoints, Receives, RouterOk, AgentAgrees, EventsAgree, DistinctPairs, Transmitted;
    match step
    case Router(op) =>
      var events :| Performs(sys.router, op, sys'.router, events, createIoRoute) && Published(sys, sys', events);
      PublishedAgree(sys.router, op, sys'.router, events, routeOf, raw, createIoRoute);
      TransmittedAgree(sys'.router.context.name, events, routeOf, raw);
      forall i | i in sys'.agents
        ensures AgentAgrees(sys'.agents[i], routeOf, raw)
      {
        MorePublished(sys.agents[i], Transmitted(sys'.router.context.name, events), routeOf, raw);
      }
    case Deliver(id) =>
      ReceivedAgree(sys.agents[id], sys'.agents[id], routeOf, raw);
  }

  /** In every reachable state, what agents have subscribed and what is on its way to them agrees. */
  lemma {:induction false} SubscriptionsAgree(trace: seq<System>, steps: seq<Step>, k: nat,
          routeOf: Uuid -> string, raw: Uuid -> bool, createIoRoute: Uuid -> string)
    requires IsRun(trace, steps, createIoRoute) && k < |trace|
    requires IsRespectful(trace, steps, Fixed(routeOf), createIoRoute) && UsesRaw(trace, steps, raw)
    ensures AllAgree(trace[k], routeOf, raw)
  {
    if k == 0 {
      assert forall i <- trace[0].agents :: trace[0].agents[i].calls == [] && trace[0].agents[i].channel == [];
    } else {
      hide InSync, Next, Init, Respects, HasPoints, RouterOk, AllAgree, DistinctPairs, Resolved, AsMap;
      SubscriptionsAgree(trace, steps, k - 1, routeOf, raw, createIoRoute);
      AgentsMirrorRouter(trace, steps, k - 1, Fixed(routeOf), createIoRoute);
      NextAgree(trace[k - 1], steps[k - 1], trace[k], routeOf, raw, createIoRoute);
    }
  }

  lemma TransmittedAgree(name: string, events: seq<AssociateEvent>, routeOf: Uuid -> string, raw: Uuid -> bool)
    requires EventsAgree(events, routeOf, raw)
    ensures EventsAgree(Transmitted(name, events), routeOf, raw)
  {
  }
}

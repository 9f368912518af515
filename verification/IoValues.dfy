/**
 * The purpose of IO routing: an IO value published by a source reaches exactly the actors
 * the router associates with that source, and each of them once.
 */
module IoValues {
  import opened Prelude
  import opened IoModel
  import opened IoRules
  import opened RuleBasedIoRouter
  import opened IoAgent
  import opened IoRouting
  import opened IoRawValues
  import opened MqttTopic
  import opened MqttSubscriptions

  // ---------------------------------------------------------------- routes

  /** The route the binding creates for an IO source. */
  function CreateIoRoute(namespace: string, sourceId: Uuid): string {
    GetTopicName(API_VERSION, namespace, IoValue, None, sourceId, None)
  }

  lemma CreateIoRouteInjective(namespace: string, s: Uuid, t: Uuid)
    requires CreateIoRoute(namespace, s) == CreateIoRoute(namespace, t)
    ensures s == t
  {
    hide Under, EventLevel;
    var level := EventLevel(IoValue, None);
    UnderInjective("coaty", Under(Decimal(API_VERSION), Under(namespace, Under(level, s))),
                            Under(Decimal(API_VERSION), Under(namespace, Under(level, t))));
    UnderInjective(Decimal(API_VERSION), Under(namespace, Under(level, s)), Under(namespace, Under(level, t)));
    UnderInjective(namespace, Under(level, s), Under(level, t));
    UnderInjective(level, s, t);
  }

  /** A created route is recognised as an IO value topic of its source. */
  lemma CreatedRouteIsRouteLike(namespace: string, sourceId: Uuid)
    requires IsLevel(namespace) && IsLevel(sourceId)
    ensures IsRouteLike(CreateIoRoute(namespace, sourceId))
    ensures CreateByName(CreateIoRoute(namespace, sourceId)).topic.sourceId == Some(sourceId)
  {
    ParseTopicName(API_VERSION, namespace, IoValue, None, sourceId, None);
  }

  /** Sources have different routes if none share an external route and external routes are no Coaty topics. */
  lemma RoutesDiffer(external: Uuid -> Option<string>, namespace: string, s: Uuid, t: Uuid)
    requires forall u: Uuid, v: Uuid :: Given(external(u)) && external(u) == external(v) ==> u == v
    requires forall u: Uuid :: Given(external(u)) ==> !IsCoatyTopicLike(external(u).value)
    requires RouteGiven(external, namespace, s) == RouteGiven(external, namespace, t)
    ensures s == t
  {
    assert IsCoatyTopicLike(CreateIoRoute(namespace, s)) && IsCoatyTopicLike(CreateIoRoute(namespace, t));
    if !Given(external(s)) && !Given(external(t)) {
      CreateIoRouteInjective(namespace, s, t);
    } else if Given(external(s)) && Given(external(t)) {
      assert external(s) == external(t);
    }
  }

  /** The one route of a source: its external route, else the created one. */
  function RouteGiven(external: Uuid -> Option<string>, namespace: string, s: Uuid): string {
    if Given(external(s)) then external(s).value else CreateIoRoute(namespace, s)
  }

  // ---------------------------------------------------------------- subscriptions of an agent

  function RouteRequest(call: BindingCall): Request {
    Request(IoValue, Some(call.route), None, call.Subscribe? && call.isDataRaw, false)
  }

  /** What an agent asks its binding for: IO value subscriptions as Associate events demand, and others. */
  datatype BindingRequest = ForIoValues(call: BindingCall) | Other(request: Request, forSubscription: bool)
  {
    function Asked(): Request { if ForIoValues? then RouteRequest(call) else request }
    predicate IsSubscription() { if ForIoValues? then call.Subscribe? else forSubscription }
    function Item(namespace: Option<string>): SubscriptionItem {
      SubscriptionItem(Asked().eventType, TopicFilterFor(namespace, Asked()), !Asked().isDataRaw)
    }
  }

  /** What `OnSubscribe` and `OnUnsubscribe` do to the issued subscriptions. */
  function Issue(namespace: Option<string>, items: seq<SubscriptionItem>, b: BindingRequest): seq<SubscriptionItem> {
    if !b.IsSubscription() then Removed(items, b.Asked().eventType, TopicFilterFor(namespace, b.Asked()))
    else if IsAccepted(namespace, b.Asked()) then Added(items, b.Item(namespace))
    else items
  }

  function IssuedBy(namespace: Option<string>, log: seq<BindingRequest>): seq<SubscriptionItem> {
    if log == [] then []
    else Issue(namespace, IssuedBy(namespace, log[..|log| - 1]), log[|log| - 1])
  }

  function IoCalls(log: seq<BindingRequest>): seq<BindingCall> {
    if log == [] then []
    else
      var last := log[|log| - 1];
      IoCalls(log[..|log| - 1]) + if last.ForIoValues? then [last.call] else []
  }

  /** All other requests are not for IO values, and those for Raw events take the data as they come. */
  ghost predicate OnlyOthers(log: seq<BindingRequest>) {
    forall b <- log | b.Other? ::
      !b.request.eventType.IoValue? && (b.request.eventType.Raw? ==> b.request.isDataRaw)
  }

  /** The binding of an agent: its options, the requests made so far, and the actors whose values are observed. */
  datatype Binding = Binding(namespace: Option<string>, log: seq<BindingRequest>, observed: set<Uuid>)
  {
    /** The requests for IO values are the calls the agent made in handling Associate events. */
    ghost predicate Belongs(agent: Agent) { OnlyOthers(log) && IoCalls(log) == agent.calls }

    function Issued(): seq<SubscriptionItem> { IssuedBy(namespace, log) }

    /** The payload can be decoded, or no subscription for the topic asks for that. */
    ghost predicate Understands(topicName: string, isJson: bool) {
      isJson || forall b <- log | b.IsSubscription() && IsMeant(b.Item(namespace), topicName) :: b.Asked().isDataRaw
    }
  }

  /** The binding serves an agent: it has one IO value subscription for each observed route that is a valid topic. */
  ghost predicate Serves(items: seq<SubscriptionItem>, st: AgentState) {
    && NoDuplicates(items)
    && forall r :: Has(items, IoValue, r) <==> r in st.actors && IsValidTopic(r, false)
  }

  lemma SubscribedNext(calls: seq<BindingCall>, call: BindingCall)
    ensures Subscribed(calls + [call]) ==
            if call.Subscribe? then Subscribed(calls) + {call.route} else Subscribed(calls) - {call.route}
  {
    assert (calls + [call])[..|calls|] == calls;
  }

  /** Whatever else is subscribed: an IO value subscription is issued for exactly the routes called for. */
  lemma {:induction false} IssuedRoutes(namespace: Option<string>, log: seq<BindingRequest>)
    requires OnlyOthers(log)
    ensures NoDuplicates(IssuedBy(namespace, log))
    ensures forall r :: Has(IssuedBy(namespace, log), IoValue, r) <==>
                r in Subscribed(IoCalls(log)) && IsValidTopic(r, false)
  {
    hide NoDuplicates, Has, Added, Removed, IsValidTopic, Subscribed, IsCoatyTopicLike, GetTopicFilter;
    if log == [] {
      EmptyItems();
    } else {
      var n := |log| - 1;
      IssuedRoutes(namespace, log[..n]);
      var items, b := IssuedBy(namespace, log[..n]), log[n];
      AddedFilters(items, b.Item(namespace));
      RemovedFilters(items, b.Asked().eventType, TopicFilterFor(namespace, b.Asked()));
      if b.ForIoValues? {
        SubscribedNext(IoCalls(log[..n]), b.call);
      } else {
        assert IoCalls(log) == IoCalls(log[..n]);
      }
    }
  }

  lemma EmptyItems()
    ensures NoDuplicates([]) && Subscribed([]) == {} && forall t, f :: !Has([], t, f)
  {
  }

  /** The requests of an agent let its binding serve it. */
  lemma RequestsServe(binding: Binding, agent: Agent)
    requires binding.Belongs(agent) && Observes(agent.calls, agent.state.actors)
    ensures Serves(binding.Issued(), agent.state)
  {
    hide Has, IsValidTopic, NoDuplicates;
    IssuedRoutes(binding.namespace, binding.log);
  }

  lemma {:induction false} IssuedAreAsked(namespace: Option<string>, log: seq<BindingRequest>, item: SubscriptionItem)
    requires item in IssuedBy(namespace, log)
    ensures exists b <- log :: b.IsSubscription() && b.Item(namespace) == item
  {
    var n := |log| - 1;
    var items, b := IssuedBy(namespace, log[..n]), log[n];
    hide IsAccepted, TopicFilterFor, IssuedBy;
    assert IssuedBy(namespace, log) == Issue(namespace, items, b) by { UnfoldIssued(namespace, log); }
    IssueMembers(namespace, items, b, item);
    if item in items {
      IssuedAreAsked(namespace, log[..n], item);
      var c :| c in log[..n] && c.IsSubscription() && c.Item(namespace) == item;
      assert c in log;
    } else {
      assert log[n] in log;
    }
  }

  lemma UnfoldIssued(namespace: Option<string>, log: seq<BindingRequest>)
    requires log != []
    ensures IssuedBy(namespace, log) == Issue(namespace, IssuedBy(namespace, log[..|log| - 1]), log[|log| - 1])
  {
  }

  lemma IssueMembers(namespace: Option<string>, items: seq<SubscriptionItem>, b: BindingRequest, item: SubscriptionItem)
    requires item in Issue(namespace, items, b)
    ensures item in items || (b.IsSubscription() && b.Item(namespace) == item)
  {
    hide IsAccepted, TopicFilterFor;
  }

  lemma UnderstandingNeverThrows(binding: Binding, topicName: string, isJson: bool)
    requires binding.Understands(topicName, isJson)
    ensures !ThrowsForAny(binding.Issued(), topicName, isJson)
  {
    hide IssuedBy, TopicFilterFor, IsMeant;
    if ThrowsForAny(binding.Issued(), topicName, isJson) {
      var item :| item in binding.Issued() && Throws(item, topicName, isJson);
      IssuedAreAsked(binding.namespace, binding.log, item);
    }
  }

  // ---------------------------------------------------------------- delivery of one published value

  /** The broker forwards a message, once, to a client with a matching subscription. */
  ghost predicate Arrives(items: seq<SubscriptionItem>, topicName: string)
    requires topicName != ""
  {
    exists item <- items :: item.topicFilter != "" && Mqtt311Matches(topicName, item.topicFilter)
  }

  /** The actors a value for a route is handed to: the ones on the route whose values are observed. */
  ghost function Receivers(st: AgentState, observed: set<Uuid>, route: string): set<Uuid> {
    set a | a in Observers(st, route) && a in observed
  }

  /** On how many of the given routes actor `a` is a receiver. */
  ghost function CountReceived(routes: seq<string>, st: AgentState, observed: set<Uuid>, a: Uuid): nat {
    if routes == [] then 0
    else
      CountReceived(routes[..|routes| - 1], st, observed, a) +
      if a in Receivers(st, observed, routes[|routes| - 1]) then 1 else 0
  }

  /** How often actor `a` of an agent is handed a value published on a topic. */
  ghost function Receptions(binding: Binding, st: AgentState, topicName: string, isJson: bool, a: Uuid): nat
    requires topicName != ""
  {
    if Arrives(binding.Issued(), topicName) then
      CountReceived(IoValueRoutes(InboundFor(binding.Issued(), topicName, isJson)), st, binding.observed, a)
    else 0
  }

  lemma {:induction false} SplitChars(s: string)
    ensures forall level <- Split(s), c <- level :: c in s
  {
    if s != "" {
      SplitChars(s[1..]);
    }
  }

  /** A topic without wildcards matches itself. */
  lemma MatchesItself(topic: string)
    requires IsValidTopic(topic, false)
    ensures Mqtt311Matches(topic, topic)
  {
    hide Split;
    SplitChars(topic);
    var levels := Split(topic);
    assert forall i | 0 <= i < |levels| :: levels[i] == "#" ==> '#' in levels[i];
    assert topic[0] in topic;
  }

  lemma ObserverReceives(binding: Binding, st: AgentState, topicName: string, isJson: bool, a: Uuid)
    requires Serves(binding.Issued(), st) && IsValidTopic(topicName, false) && IsRouteLike(topicName)
    requires binding.Understands(topicName, isJson)
    ensures topicName != ""
    ensures Receptions(binding, st, topicName, isJson, a) ==
            if a in Receivers(st, binding.observed, topicName) then 1 else 0
  {
    hide IsValidTopic, IsRouteLike, Mqtt311Matches, InboundByItem, IoValueRoutes, NoDuplicates, IssuedBy, ThrowsForAny,
      CountReceived;
    var items, parsed := binding.Issued(), CreateByName(topicName);
    TopicGiven(topicName);
    UnderstandingNeverThrows(binding, topicName, isJson);
    IoValueHandedOver(items, topicName, if parsed.Coaty? then parsed.topic.sourceId else None, isJson);
    if topicName in st.actors {
      assert Has(items, IoValue, topicName);
      MatchesItself(topicName);
      assert Arrives(items, topicName);
    }
    CountSingle(topicName, st, binding.observed, a);
  }

  lemma CountSingle(route: string, st: AgentState, observed: set<Uuid>, a: Uuid)
    ensures CountReceived([route], st, observed, a) == if a in Receivers(st, observed, route) then 1 else 0
    ensures CountReceived([], st, observed, a) == 0
  {
    assert [route][..0] == [];
  }

  lemma TopicGiven(topicName: string)
    requires IsValidTopic(topicName, false)
    ensures topicName != ""
  {
  }

  // ---------------------------------------------------------------- the configuration

  /** The external routes, the namespace of the router's binding, and which IO points use raw values. */
  datatype Setup = Setup(external: Uuid -> Option<string>, namespace: string, raw: Uuid -> bool) {
    function Route(s: Uuid): string { RouteGiven(external, namespace, s) }
    function RouteOf(): Uuid -> string { (s: Uuid) => Route(s) }

    /** The node's sources name the external routes given for their ids, or none. */
    ghost predicate NamesRoutes(node: IoNode) {
      forall p <- node.ioSources ::
        if Given(external(p.objectId)) then p.externalRoute == external(p.objectId) else !Given(p.externalRoute)
    }

    /** External routes are not shared and are no Coaty topics, and the route of `s` is a valid topic. */
    ghost predicate HasOwnRoute(s: Uuid) {
      && (forall t: Uuid, u: Uuid :: Given(external(t)) && external(t) == external(u) ==> t == u)
      && (forall t: Uuid :: Given(external(t)) ==> !IsCoatyTopicLike(external(t).value))
      && IsLevel(namespace) && IsLevel(s) && IsValidTopic(Route(s), false)
    }

    /** The binding creates IO routes under the namespace, and all IO points ever advertised are as given here. */
    ghost predicate IsUsedBy(trace: seq<System>, steps: seq<Step>, createIoRoute: Uuid -> string)
      requires |trace| == |steps| + 1
    {
      && (forall s: Uuid :: createIoRoute(s) == CreateIoRoute(namespace, s))
      && (forall k | 0 <= k < |steps| && steps[k].Router? && steps[k].op.NodeAdvertised? ::
            NamesRoutes(steps[k].op.node))
      && UsesRaw(trace, steps, raw)
    }
  }

  lemma ConfiguredRespects(trace: seq<System>, steps: seq<Step>, createIoRoute: Uuid -> string, setup: Setup)
    requires |trace| == |steps| + 1 && setup.IsUsedBy(trace, steps, createIoRoute)
    ensures IsRespectful(trace, steps, Fixed(setup.RouteOf()), createIoRoute)
  {
    hide CreateIoRoute, UsesRaw;
    forall k | 0 <= k < |steps| && steps[k].Router? && steps[k].op.NodeAdvertised?
      ensures Respects(trace[k].router.nodes, steps[k].op.node, Fixed(setup.RouteOf()), createIoRoute)
    {
      assert setup.NamesRoutes(steps[k].op.node);
    }
  }

  /** No other source has the route of `s`, and the route may carry IO values. */
  lemma OwnRoute(setup: Setup, s: Uuid)
    requires setup.HasOwnRoute(s)
    ensures IsRouteLike(setup.Route(s))
    ensures forall t | setup.Route(t) == setup.Route(s) :: t == s
  {
    hide IsValidTopic, IsLevel, CreateIoRoute;
    forall t | setup.Route(t) == setup.Route(s)
      ensures t == s
    {
      RoutesDiffer(setup.external, setup.namespace, t, s);
    }
    if !Given(setup.external(s)) {
      CreatedRouteIsRouteLike(setup.namespace, s);
    }
  }

  // ---------------------------------------------------------------- raw and decoded values

  lemma {:induction false} CallsInLog(log: seq<BindingRequest>)
    ensures forall b <- log | b.ForIoValues? :: b.call in IoCalls(log)
  {
    if log != [] {
      var n := |log| - 1;
      CallsInLog(log[..n]);
      assert log == log[..n] + [log[n]];
    }
  }

  /** Whoever subscribes the route of a source subscribes it as the source uses it. */
  lemma CalledAsUsed(setup: Setup, s: Uuid, binding: Binding, agent: Agent, b: BindingRequest)
    requires setup.HasOwnRoute(s) && binding.Belongs(agent) && AgentAgrees(agent, setup.RouteOf(), setup.raw)
    requires b in binding.log && b.ForIoValues? && b.call.Subscribe? && b.call.route == setup.Route(s)
    ensures b.call.isDataRaw == setup.raw(s)
  {
    hide Setup.HasOwnRoute, Setup.Route;
    CallsInLog(binding.log);
    assert b.call in agent.calls && IsCallFor(b.call, setup.RouteOf(), setup.raw);
    var t :| b.call == Subscribe(setup.RouteOf()(t), setup.raw(t));
    OwnRoute(setup, s);
    assert setup.RouteOf()(t) == setup.Route(t);
  }

  /** So a binding understands what the source publishes. */
  lemma RequestsUnderstand(setup: Setup, s: Uuid, binding: Binding, agent: Agent, isJson: bool)
    requires setup.HasOwnRoute(s) && binding.Belongs(agent) && AgentAgrees(agent, setup.RouteOf(), setup.raw)
    requires setup.raw(s) || isJson
    ensures binding.Understands(setup.Route(s), isJson)
  {
    hide Setup.HasOwnRoute, Setup.Route, AgentAgrees, Accepts;
    if !isJson {
      forall b | b in binding.log && b.IsSubscription() && IsMeant(b.Item(binding.namespace), setup.Route(s))
        ensures b.Asked().isDataRaw
      {
        if b.ForIoValues? {
          CalledAsUsed(setup, s, binding, agent, b);
        }
      }
    }
  }

  /** What is handed over for subscriptions stems from one of them. */
  lemma {:induction false} InboundIsMeant(items: seq<SubscriptionItem>, topicName: string, sourceId: Option<string>,
                                          isJson: bool, e: Inbound)
    requires e in InboundByItem(items, topicName, sourceId, isJson)
    ensures exists item <- items :: IsMeant(item, topicName) && e == InboundFrom(item, topicName, sourceId)
  {
    var n := |items| - 1;
    hide IsMeant, ThrowsForAny;
    assert items == items[..n] + [items[n]];
    if e in InboundByItem(items[..n], topicName, sourceId, isJson) {
      InboundIsMeant(items[..n], topicName, sourceId, isJson, e);
    } else {
      assert e == InboundFrom(items[n], topicName, sourceId);
    }
  }

  /** An IO value is handed over with its topic, and decoded exactly if its source does not publish raw values. */
  lemma HandedOverAsPublished(setup: Setup, s: Uuid, binding: Binding, agent: Agent, isJson: bool, e: Inbound)
    requires setup.HasOwnRoute(s) && binding.Belongs(agent) && AgentAgrees(agent, setup.RouteOf(), setup.raw)
    requires e in InboundFor(binding.Issued(), setup.Route(s), isJson) && e.eventType == Some(IoValue)
    ensures e.eventTypeFilter == Some(setup.Route(s)) && e.isDecoded == !setup.raw(s)
  {
    hide Setup.HasOwnRoute, Setup.Route, AgentAgrees, Accepts, InboundByItem, IssuedBy, IsRouteLike, TopicFilterFor;
    OwnRoute(setup, s);
    var topicName, parsed := setup.Route(s), CreateByName(setup.Route(s));
    var sourceId := if parsed.Coaty? then parsed.topic.sourceId else None;
    InboundIsMeant(binding.Issued(), topicName, sourceId, isJson, e);
    var item :| item in binding.Issued() && IsMeant(item, topicName) && e == InboundFrom(item, topicName, sourceId);
    IssuedAreAsked(binding.namespace, binding.log, item);
    var b :| b in binding.log && b.IsSubscription() && b.Item(binding.namespace) == item;
    assert b.ForIoValues?;
    IoFilter(b, binding.namespace);
    CalledAsUsed(setup, s, binding, agent, b);
  }

  lemma IoFilter(b: BindingRequest, namespace: Option<string>)
    requires b.ForIoValues?
    ensures b.Item(namespace).topicFilter == b.call.route
  {
  }

  // ---------------------------------------------------------------- the main theorems

  /**
   * The run and its configuration, and the situation in which source `s` of agent `j` publishes
   * to agent `i`. The values of sources that do not publish raw values are published as JSON.
   */
  ghost predicate IsDelivery(trace: seq<System>, steps: seq<Step>, k: nat, createIoRoute: Uuid -> string, setup: Setup,
                             j: AgentId, s: Uuid, i: AgentId, binding: Binding, isJson: bool)
  {
    && IsRun(trace, steps, createIoRoute) && k < |trace|
    && setup.IsUsedBy(trace, steps, createIoRoute) && setup.HasOwnRoute(s)
    && j in trace[k].agents && trace[k].agents[j].channel == [] && s in trace[k].agents[j].Points()
    && i in trace[k].agents && trace[k].agents[i].channel == []
    && binding.Belongs(trace[k].agents[i]) && (setup.raw(s) || isJson)
  }

  /** How often actor `a` of agent `i` is handed a value that source `s` of agent `j` publishes. */
  ghost function Delivered(sys: System, j: AgentId, s: Uuid, i: AgentId, binding: Binding, isJson: bool, a: Uuid): nat
    requires i in sys.agents && j in sys.agents
  {
    var topic := PublicationRoute(sys.agents[j].state, s);
    if topic.None? || topic.value == "" then 0
    else Receptions(binding, sys.agents[i].state, topic.value, isJson, a)
  }

  /**
   * Once their Associate events are delivered, a value published by source `s` of agent `j`
   * is handed exactly once to every actor of agent `i` whose values are observed and that
   * the router associates with `s`, and to no other actor; it is decoded exactly if `s` does
   * not publish raw values.
   */
  lemma ExactlyAssociatedActorsReceive(
    trace: seq<System>, steps: seq<Step>, k: nat, createIoRoute: Uuid -> string, setup: Setup,
    j: AgentId, s: Uuid, i: AgentId, binding: Binding, isJson: bool, a: Uuid)
    requires IsDelivery(trace, steps, k, createIoRoute, setup, j, s, i, binding, isJson)
    ensures DistinctPairs(trace[k].router.associations)
    ensures var sys := trace[k];
            Delivered(sys, j, s, i, binding, isJson, a) ==
            if a in sys.agents[i].Points() && a in binding.observed && (s, a) in AsMap(sys.router.associations)
            then 1 else 0
    ensures PublicationRoute(trace[k].agents[j].state, s) in [None, Some(setup.Route(s))]
    ensures forall e <- InboundFor(binding.Issued(), setup.Route(s), isJson) | e.eventType == Some(IoValue) ::
              e.eventTypeFilter == Some(setup.Route(s)) && e.isDecoded == !setup.raw(s)
  {
    var routeOf, fixed, sys := setup.RouteOf(), Fixed(setup.RouteOf()), trace[k];
    ConfiguredRespects(trace, steps, createIoRoute, setup);
    AgentsMirrorRouter(trace, steps, k, fixed, createIoRoute);
    SubscriptionsAgree(trace, steps, k, routeOf, setup.raw, createIoRoute);
    assert InSync(sys.agents[i], sys.router, fixed) && InSync(sys.agents[j], sys.router, fixed);
    assert AgentAgrees(sys.agents[i], routeOf, setup.raw);
    hide IsRun, Setup.IsUsedBy, IsRespectful, Inv, InSync, AsMap, DistinctPairs, Receptions, Serves, IsValidTopic,
        IsRouteLike, Handle, Resolved, RouteGiven, Observes, AllAgree, AgentAgrees, Setup.HasOwnRoute, InboundFor,
        UsesRaw;
    var pairs := AsMap(sys.router.associations).Keys;
    SyncedAgent(sys.agents[i], sys.router, fixed);
    SyncedAgent(sys.agents[j], sys.router, fixed);
    assert RouteOf(sys.router, fixed)(s) == setup.Route(s);
    PublishesIfAssociated(sys.agents[j], pairs, RouteOf(sys.router, fixed), s);
    if b :| (s, b) in pairs {
      PublishedReceives(sys.agents[i], sys.router, pairs, setup, s, binding, isJson, a);
    }
    forall e | e in InboundFor(binding.Issued(), setup.Route(s), isJson) && e.eventType == Some(IoValue)
      ensures e.eventTypeFilter == Some(setup.Route(s)) && e.isDecoded == !setup.raw(s)
    {
      HandedOverAsPublished(setup, s, binding, sys.agents[i], isJson, e);
    }
  }

  /** A value published on the route of `s` is handed over exactly to the actors associated with `s`. */
  lemma PublishedReceives(agent: Agent, r: RouterState, pairs: set<Pair>, setup: Setup, s: Uuid,
                          binding: Binding, isJson: bool, a: Uuid)
    requires Consistent(agent.Points(), agent.state) && Observes(agent.calls, agent.state.actors)
    requires Mirrors(agent.Points(), agent.state, pairs, RouteOf(r, Fixed(setup.RouteOf())))
    requires setup.HasOwnRoute(s) && binding.Belongs(agent) && AgentAgrees(agent, setup.RouteOf(), setup.raw)
    requires setup.raw(s) || isJson
    ensures setup.Route(s) != ""
    ensures Receptions(binding, agent.state, setup.Route(s), isJson, a) ==
            if a in agent.Points() && a in binding.observed && (s, a) in pairs then 1 else 0
  {
    var routeOf := RouteOf(r, Fixed(setup.RouteOf()));
    assert forall t :: routeOf(t) == setup.Route(t);
    assert IsValidTopic(setup.Route(s), false);
    hide Receptions, Serves, IsValidTopic, IsRouteLike, Setup.HasOwnRoute, RouteGiven, Observes, Mirrors, Consistent,
        AgentAgrees, Binding.Belongs, Binding.Understands;
    OwnRoute(setup, s);
    RequestsServe(binding, agent);
    RequestsUnderstand(setup, s, binding, agent, isJson);
    ObserverReceives(binding, agent.state, setup.Route(s), isJson, a);
    ObservesIfAssociated(agent, pairs, routeOf, s, a);
  }

  /**
   * So a published value reaches exactly the actors that are managed, agree with the source in
   * value type and in the use of raw values, and are associated with it by a rule.
   */
  lemma ValuesFollowRules(
    trace: seq<System>, steps: seq<Step>, k: nat, createIoRoute: Uuid -> string, setup: Setup,
    j: AgentId, s: Uuid, i: AgentId, binding: Binding, isJson: bool, a: Uuid)
    requires IsDelivery(trace, steps, k, createIoRoute, setup, j, s, i, binding, isJson)
    ensures var sys := trace[k];
            Delivered(sys, j, s, i, binding, isJson, a) ==
            if a in sys.agents[i].Points() && a in binding.observed && Wanted(sys.router.Config(), (s, a))
            then 1 else 0
    ensures Delivered(trace[k], j, s, i, binding, isJson, a) == 1 ==>
              exists x <- trace[k].router.associations :: x.Pair() == (s, a) &&
                x.source.valueType == x.actor.valueType && x.source.useRawIoValues == x.actor.useRawIoValues
  {
    assert |trace| == |steps| + 1;
    hide Delivered, Setup.IsUsedBy, Setup.HasOwnRoute, IsRun, AsMap, Wanted, InSync, Inv, IsRespectful;
    ExactlyAssociatedActorsReceive(trace, steps, k, createIoRoute, setup, j, s, i, binding, isJson, a);
    ConfiguredRespects(trace, steps, createIoRoute, setup);
    AgentsMirrorRouter(trace, steps, k, Fixed(setup.RouteOf()), createIoRoute);
    var m := AsMap(trace[k].router.associations);
    if (s, a) in m {
      assert m[(s, a)] in trace[k].router.associations && m[(s, a)].Pair() == (s, a);
    }
  }

  /** Without undelivered events, an agent mirrors the router as it is. */
  lemma SyncedAgent(agent: Agent, r: RouterState, fixed: Uuid -> Option<string>)
    requires DistinctPairs(r.associations) && InSync(agent, r, fixed) && agent.channel == []
    ensures Consistent(agent.Points(), agent.state) && Observes(agent.calls, agent.state.actors)
    ensures Mirrors(agent.Points(), agent.state, AsMap(r.associations).Keys, RouteOf(r, fixed))
  {
  }

  /** A source publishes, on its route, iff the router associates it with some actor. */
  lemma PublishesIfAssociated(agent: Agent, pairs: set<Pair>, routeOf: Uuid -> string, s: Uuid)
    requires Consistent(agent.Points(), agent.state) && Mirrors(agent.Points(), agent.state, pairs, routeOf)
        && s in agent.Points()
    ensures PublicationRoute(agent.state, s) == if exists a :: (s, a) in pairs then Some(routeOf(s)) else None
  {
    hide TidyActors, OneRoutePerPair, SidesAgree;
    if s in agent.state.sources {
      var item := agent.state.sources[s];
      assert Feeds(agent.state.sources, s, item.route, item.actorIds[0]);
    }
    if a :| (s, a) in pairs {
      assert Feeds(agent.state.sources, s, routeOf(s), a);
    }
  }

  /** An own actor observes the route of a source iff the router associates the two. */
  lemma ObservesIfAssociated(agent: Agent, pairs: set<Pair>, routeOf: Uuid -> string, s: Uuid, a: Uuid)
    requires Consistent(agent.Points(), agent.state) && Mirrors(agent.Points(), agent.state, pairs, routeOf)
    requires forall t | routeOf(t) == routeOf(s) :: t == s
    ensures a in Observers(agent.state, routeOf(s)) <==> a in agent.Points() && (s, a) in pairs
  {
    hide TidySources, OneRoutePerPair, SidesAgree;
    var route := routeOf(s);
    if a in Observers(agent.state, route) {
      var t := agent.state.actors[route][a][0];
      assert Linked(agent.state.actors, route, a, t);
    }
    if a in agent.Points() && (s, a) in pairs {
      assert Linked(agent.state.actors, route, a, s);
    }
  }
}

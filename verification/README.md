# Verification of coaty-js: IO routing, MQTT binding, queries, and object lifecycle

coaty-js is a framework for decentralized publish-subscribe communication between agents.
This project models the four parts of it that hold the most intricate state or text
processing, and proves what its documentation promises of them, for all inputs and all runs.

* **IO routing.** A router associates IO sources with IO actors by rules and publishes
  Associate events; every agent folds these events into routing tables and subscriptions.
  `IoModel`, `IoRules`, `RuleBasedIoRouter` and `IoAgent` model the two sides as objects,
  `IoRouting` the protocol between them as a transition system, `IoSharedSources` what
  sources with the same id do to it, `IoRates` and `IoRawValues` what it does to update rates
  and raw values, and `IoValues` the delivery of IO values over the routes. Main results:
  each agent plus the events on its way to it equals the router's view
  (`IoRouting.AgentsMirrorRouter`), which holds in all runs iff sources with the same id on
  different nodes get the same route (`IoSharedSources.MirroringNeedsAgreement`), and an IO
  value reaches exactly the associated actors, which are those the router's rules ask for,
  and each of them once (`IoValues.ExactlyAssociatedActorsReceive`,
  `IoValues.ValuesFollowRules`).
* **MQTT binding.** `MqttTopic` models printing, parsing and matching of topics,
  `MqttSubscriptions` the subscription list against the broker's session,
  `MqttPublications` the deferred publication queue, `MqttPublicationRuns` all
  interleavings of publications, connects, disconnects and publish callbacks, and
  `MqttPublicationHistory` what becomes of publications in them. Main results: a topic parses
  back into what it was made of, a message is handed over as what it was published as, nothing
  published is lost or reordered, the queue never stalls while connected, and join events are
  published first.
* **Queries.** `LikePattern` models the compiler from LIKE patterns to regular expressions,
  `QueryLoops` the three loops that hand query results to an action, and `SqlTemplate` the
  builder of nested SQL templates with bound parameters.
* **Objects.** `Deep` models deep equality, containment and cloning, `ObjectLifecycle` the
  registry of advertised objects and its change records, and `TypedObservers` the observers
  of Advertise and Update events by core type or object type.

Objects whose methods change fields are classes here, and each method is proved against a
function or relation on the values of these fields (`State()`, `Handle`, `Performs`,
`Step`, ...); the lemmas are about these. JavaScript maps whose iteration order could matter
are iterated in an arbitrary order. `undefined` is `None`. Functions passed in by callers
(rule conditions, query actions, matchers, literal quoting) are arbitrary total functions; a
rule condition that throws counts as one that yields false.

Where the code and its documentation disagree, the model follows the code:

* `clone` is documented to behave as a JSON round trip that throws for circular structures.
  The code also throws for an object that merely occurs twice
  (`Deep.SharedObjectIsRefused`).
* `contains` is documented for all values. It throws a type error whenever it compares an
  object with null, even on top level or for two equal arrays (`Deep.NullThrows`); it answers
  for all outer values iff there is no null in the inner one (`Deep.NeverThrowsIffNullFree`).
  It is not transitive when an object contains a non-empty array by its index-like keys
  (`Deep.IndexKeysBreakTransitivity`, `Deep.TransitiveIffNoIndexKey`).
* The router promises one common route for all associations of a source. It forgets the
  route when any node that has the source is deregistered, also if another managed node has
  a source with the same id. The route is recreated, and differs only if the two sources
  name different routes; then agents drop actors (`IoSharedSources.ConflictLosesActor`).
* `MqttTopic.matches` is documented to follow MQTT 3.1.1. It accepts more for filters such
  as `a/+/#` (`MqttTopic.OvermatchExample`), and `MqttTopic.MatchesIsMqtt311` says exactly
  when it agrees.
* The event data of Associate events does not serialise its flag for external routes
  (`src/com/associate.ts`), so agents never see it; events here carry no
  such flag.
* A regular expression compiled from a LIKE pattern does not let wildcards stand for line
  terminators (`LikePattern.MatchesAsLike`, `LikePattern.PatternMatchesAsLike`).
* Digits that directly follow a bound value in an SQL template are read as part of the
  placeholder's number (`SqlTemplate.NumberedInOrder` says when numbering is right).

## Model

| member | source | states |
|---|---|---|
| `IoRules.SpecificRulesShadowGlobalOnes` | src/io-routing/rule-based-io-router.ts:69-88 | A condition decides on a source iff it is defined for the value type of the source, or globally and no condition is defined for that value type |
| `IoRules.RuleTableHolds` | src/io-routing/rule-based-io-router.ts:69-88 | The rule table holds, for each value type, exactly the defined rules that have a condition |
| `IoRules.SourceTableKeyed` | src/io-routing/rule-based-io-router.ts:155-162 | The table has an entry for every source id of the managed nodes, and only entries of sources of these nodes under their own ids, with their nodes |
| `IoRules.ActorTableKeyed` | src/io-routing/rule-based-io-router.ts:155-162 | The table has an entry for every actor id of the managed nodes, and only entries of actors of these nodes under their own ids, with their nodes |
| `IoRules.MaxRateUnique` | src/io-routing/rule-based-io-router.ts:277-286 | A set of rates has at most one maximum of its defined rates |
| `IoRules.ResolvedUnique` | src/io-routing/rule-based-io-router.ts:146-148 | The outcome of an evaluation is determined by nodes, rules and context, whatever the order in which maps are iterated |
| `IoRules.OneRatePerSource` | src/io-routing/rule-based-io-router.ts:222-235 | All associations of one source carry the same update rate |
| `IoRules.AssociatedPointsFit` | src/io-routing/io-router.ts:207-210 | In every outcome of an evaluation, associated points have the same value type and both use raw values or both do not |
| `IoRules.WantedCandidate` | src/io-routing/rule-based-io-router.ts:155-220 | A pair is to be associated iff both points are managed, agree in value type and raw values, and an applicable rule holds: exactly the compatible pairs for which a rule fires |
| `RuleBasedIoRouter.RuleBasedIoRouter.EvaluateRules` | src/io-routing/rule-based-io-router.ts:146-148 | Afterwards the associations are, without duplicates, exactly the pairs of managed points that agree in value type and raw values and for which an applicable rule holds, with the maximum rate around their source; exactly the changed pairs are announced, each once, and sources keep the routes they have |
| `RuleBasedIoRouter.RuleBasedIoRouter.GetCompatibleAssociations` | src/io-routing/rule-based-io-router.ts:150-173 | Yields exactly the pairs of managed sources and actors that have the same value type and agree in the use of raw values |
| `RuleBasedIoRouter.RuleBasedIoRouter.Match` | src/io-routing/rule-based-io-router.ts:175-220 | Yields an entry for exactly the candidates for which some applicable rule holds, with the rate cumulated from source and actor |
| `RuleBasedIoRouter.RuleBasedIoRouter.AnyRuleFires` | src/io-routing/rule-based-io-router.ts:178-216 | True iff one of the applicable rules holds for the candidate |
| `RuleBasedIoRouter.RuleBasedIoRouter.Resolve` | src/io-routing/rule-based-io-router.ts:222-235 | Gives the associations of each source the maximum of their defined rates and changes nothing else |
| `RuleBasedIoRouter.RuleBasedIoRouter.Act` | src/io-routing/rule-based-io-router.ts:237-275 | Replaces the associations by the resolved ones; publishes exactly one event per added, removed or re-rated pair, and none for unchanged pairs |
| `RuleBasedIoRouter.OutcomeIsResolved` | src/io-routing/rule-based-io-router.ts:146-148 | Matching and resolving the compatible pairs yields the outcome that the rules ask for |
| `RuleBasedIoRouter.CumulatedMax` | src/io-routing/rule-based-io-router.ts:222-235 | Cumulating rates per pair and then per source yields the maximum of all defined rates of the source and its associated actors |
| `RuleBasedIoRouter.AnnouncedReplay` | src/io-routing/rule-based-io-router.ts:237-275 | Replaying the announced events on the old association relation gives the new one, in whatever order they come |
| `RuleBasedIoRouter.RouteKept` | src/io-routing/io-router.ts:167-177 | Within one evaluation all associations of a source are announced on one route |
| `RuleBasedIoRouter.RuleBasedIoRouter.Associate` | src/io-routing/io-router.ts:167-177 | Publishes an association on the route of the source; a source without a route gets its external route, else a created one, and keeps it |
| `RuleBasedIoRouter.RuleBasedIoRouter.IoNodeAdvertised` | src/io-routing/io-router.ts:252-262 | A node with IO points replaces its former version, keeping the routes of its remaining sources, and rules are evaluated once; a node without points is deadvertised |
| `RuleBasedIoRouter.RuleBasedIoRouter.IoNodesDeadvertised` | src/io-routing/io-router.ts:264-287 | The listed nodes and the routes of their sources are dropped, and rules are evaluated iff a managed node was listed |
| `RuleBasedIoRouter.RuleBasedIoRouter.IoNodesDeadvertised'` | src/io-routing/io-router.ts:264-287 | With a readvertised node, deregisters without evaluating rules and without publishing |
| `RuleBasedIoRouter.RuleBasedIoRouter.DeregisterNodes` | src/io-routing/io-router.ts:267-282 | Drops the managed nodes with listed ids and the routes of their sources, except for sources of a readvertised node |
| `RuleBasedIoRouter.RuleBasedIoRouter.DefineRules` | src/io-routing/rule-based-io-router.ts:69-88 | Replaces all rules, ignoring those without a condition, and evaluates |
| `RuleBasedIoRouter.RuleBasedIoRouter.OnIoContextChanged` | src/io-routing/rule-based-io-router.ts:55-58 | Evaluates the rules under the new context |
| `RuleBasedIoRouter.RuleBasedIoRouter.Stop` | src/io-routing/rule-based-io-router.ts:99-107 | Publishes one disassociation for every current association, then forgets associations, nodes and routes |
| `RuleBasedIoRouter.DeregisterMeans` | src/io-routing/io-router.ts:264-287 | Deregistering removes exactly the listed nodes and exactly the routes of their sources, except those of a readvertised node |
| `RuleBasedIoRouter.ManagedNodesFollow` | src/io-routing/io-router.ts:252-287 | Each operation leaves exactly the nodes it should: an advertised node with IO points replaces the one with its id, deadvertised nodes go, stopping clears all; only new rules change the rules, and only a changed context the context |
| `RuleBasedIoRouter.ReadvertisedSourceKeepsRoute` | src/io-routing/io-router.ts:271-277 | A source that a readvertised node still has keeps its route |
| `RuleBasedIoRouter.PerformsKeepsResolved` | src/io-routing/rule-based-io-router.ts:146-148 | After every operation the associations are what nodes, rules and context ask for, and associated points agree in value type and raw values |
| `IoRules.ResolvedFromTables` | src/io-routing/rule-based-io-router.ts:155-172 | Associated sources and actors are those of the managed nodes |
| `IoAgent.CommunicationManager.HandleAssociate` | src/com/communication-manager.ts:1265-1315 | Folds an event into the tables of own sources and actors as specified by Handle; keeps both sides consistent; keeps the subscribed routes the observed ones, subscribing at most the route of the event, for raw values iff its actor takes these; notifies the IO states of the two points |
| `IoAgent.CommunicationManager.UpdateIoSourceItems` | src/com/communication-manager.ts:1317-1350 | A source is moved to the route of the event, losing its other actors if the route changes; a disassociation removes the actor, and the source with its last actor |
| `IoAgent.CommunicationManager.AssociateIoActorItems` | src/com/communication-manager.ts:1352-1379 | The actor observes the source on the given route only; a route is subscribed exactly when its first actor comes, with the raw flag of that actor |
| `IoAgent.CommunicationManager.DisassociateIoActorItems` | src/com/communication-manager.ts:1381-1419 | The source is taken from the actor on the routes looked at; a route is unsubscribed exactly when its last actor goes |
| `IoAgent.CommunicationManager.UnobserveObservedItems` | src/com/communication-manager.ts:1421-1437 | On a stop each observer of an IO state is told once that there are no associations, all observed routes are unsubscribed, and all routing state is forgotten |
| `IoAgent.CommunicationManager.PublishIoValue` | src/com/communication-manager.ts:679-688 | An IO value is published on the current route of its source, and only if the source is associated |
| `IoAgent.CommunicationManager.DispatchIoValue` | src/com/communication-manager.ts:1172-1185 | An IO value is handed once to each own actor on the route whose values are observed, and to no other |
| `IoAgent.CommunicationManager.ObserveIoState` | src/com/communication-manager.ts:1439-1463 | Observing a point anew yields its initial state: associated as a source with its rate, or as an actor on some route; observing it again yields nothing new |
| `IoAgent.HandleKeepsConsistent` | src/com/communication-manager.ts:1265-1315 | Any single event keeps the agent consistent |
| `IoAgent.AlwaysConsistent` | src/com/communication-manager.ts:1265-1419 | After any sequence of Associate events, even from inconsistent routers: no empty maps or lists, no duplicates, each pair under one route at most, and for own points both sides hold the same links |
| `IoAgent.UpdateSourceFeeds` | src/com/communication-manager.ts:1317-1350 | An event changes exactly the links of its own source: to the new actor and route, dropping links on another route |
| `IoAgent.UpdateSourceLinks` | src/com/communication-manager.ts:1331-1340 | When a source changes its route, exactly its own links on the old route go |
| `IoAgent.DissolveLinks` | src/com/communication-manager.ts:1381-1419 | Dissolving removes exactly the links of the pair on the routes looked at |
| `IoAgent.LinkLinks` | src/com/communication-manager.ts:1352-1379 | Associating leaves the pair with exactly one link, and all other links as they are |
| `IoAgent.SourceStateIsTrue` | src/com/communication-manager.ts:1294-1302 | The state reported for a source says truly whether any actor is associated with it, and at which rate |
| `IoAgent.InitialStateIsTrue` | src/com/communication-manager.ts:1439-1463 | The initial state says truly whether the point is associated as a source or as an actor, and for a source at which rate |
| `IoAgent.ActorStateIsTrue` | src/com/communication-manager.ts:1303-1314 | The state reported for an actor is true iff the event has a route, or all links the actor had before the event are with the source of the event |
| `IoAgent.CommunicationManager.AddIoActorItems` | src/com/communication-manager.ts:1358-1378 | The source is added to the actor on the route, which is subscribed iff it is new, with the raw flag of the actor |
| `IoAgent.CommunicationManager.DropFromRoutes` | src/com/communication-manager.ts:1386-1412 | The source is taken from the actor on exactly the routes looked at; yields exactly the routes left empty by that |
| `IoAgent.CommunicationManager.DropFromRoute` | src/com/communication-manager.ts:1387-1404 | On one route the source is taken from the actor, and the actor goes with its last source |
| `IoRouting.HandleMirrors` | src/com/communication-manager.ts:1265-1290 | If an agent mirrors a relation, then after an event on the route of its source it mirrors the changed relation |
| `IoRouting.AnnouncedRoutes` | src/io-routing/io-router.ts:167-177 | In the course of an evaluation every source has one route: its old associations have it, all announcements are made on it, and the source keeps it, be it a fixed route or the one the router holds |
| `IoRouting.DeregisterKeepsAssociated` | src/io-routing/io-router.ts:264-287 | Deregistering nodes keeps the routes of all sources that stay associated, if they have no fixed route and belong to one node at a time |
| `IoRouting.PerformsRoutes` | src/io-routing/io-router.ts:252-287 | Replaying what an operation publishes on the old associations gives the new ones, for deadvertisement, rule changes and stopping alike; and everything is published on the routes of the sources |
| `IoRouting.PerformsKeepsRouterOk` | src/io-routing/rule-based-io-router.ts:146-148 | After every operation there is one node per id, the associations are those that the rules ask for, held routes are the fixed ones where given, and every other associated source has a route |
| `IoRouting.NextKeepsInv` | src/com/communication-manager.ts:1265-1290 | Every router operation and every delivery keeps all agents in sync with the router and their subscriptions in step |
| `IoRouting.AgentsMirrorRouter` | src/io-routing/io-router.ts:167-189 | In every reachable state each agent, once it has handled the events on its way to it, holds exactly the associations of the router restricted to its own sources and actors, on one route per source; these associations are exactly those that the rules ask for, between points that agree in value type and raw values, and each agent has exactly the routes subscribed that its actors observe. For each source id, either all advertised copies name one route, or no two managed nodes have it at the same time |
| `IoRouting.ReroutingLosesActors` | src/com/communication-manager.ts:1331-1340 | Why the router has to keep the routes of associated sources: an event that moves a source makes its agent forget all other actors of the source |
| `IoSharedSources.MirroringNeedsAgreement` | src/io-routing/io-router.ts:252-287 | For any choice of the sources that nodes may advertise: all agents mirror the router in all runs iff sources with the same id on different nodes get the same route |
| `IoSharedSources.ConflictLosesActor` | src/io-routing/io-router.ts:264-287 | Whenever two nodes may advertise a source with one id and different routes, there is a run after which the agent of the source has lost an actor that the router still associates with it |
| `IoSharedSources.ConflictRuns` | src/io-routing/io-router.ts:252-287 | The protocol allows that run: one rule for all points, and four advertisements of two nodes |
| `IoSharedSources.RouteForgotten` | src/io-routing/io-router.ts:271-277 | The step that does it: when one node gives its source up, the router forgets the route although another managed node has a source with that id |
| `IoRates.RateOfLastEvent` | src/com/communication-manager.ts:1317-1350 | A source that an agent holds has the update rate of the last event about it |
| `IoRates.AnnouncedRates` | src/io-routing/rule-based-io-router.ts:237-275 | Events on a route carry the new rate of the association, pairs without an event keep their rate, and disassociations carry none |
| `IoRates.AgentsHoldRates` | src/io-routing/rule-based-io-router.ts:222-275 | In every reachable state of every run, an agent that has handled its events holds for each associated source the rate of the router, or none at all |
| `IoRawValues.AssociatedAgree` | src/io-routing/io-router.ts:207-210 | If IO points are advertised as they are, only points that agree in the use of raw values are associated |
| `IoRawValues.ReceivedAgree` | src/com/communication-manager.ts:1363-1368 | Handling an event subscribes its route as the source of the event uses it |
| `IoRawValues.SubscriptionsAgree` | src/com/communication-manager.ts:1352-1379 | In every reachable state, all agents have subscribed each route for raw values exactly if the source it belongs to publishes raw values |
| `IoValues.CreateIoRouteInjective` | src/com/mqtt/mqtt-binding.ts:210-219 | Different sources get different created routes |
| `IoValues.CreatedRouteIsRouteLike` | src/com/mqtt/mqtt-binding.ts:210-219 | A message on a created route is recognised as an IO value of the source |
| `IoValues.RoutesDiffer` | src/io-routing/io-router.ts:170-174 | Routes of different sources differ unless two sources share an external route or an external route is a Coaty topic |
| `IoValues.OwnRoute` | src/com/mqtt/mqtt-binding.ts:210-219 | No other source has the route of a source, and the route may carry IO values, if external routes are not shared and no Coaty topics and names are single topic levels |
| `IoValues.ConfiguredRespects` | src/io-routing/io-router.ts:167-177 | If all copies of a source name one external route or none, each source has one fixed route: the external one, else the created one |
| `IoValues.IssuedRoutes` | src/com/communication-manager.ts:1352-1419 | Whatever else an agent subscribes and unsubscribes, its binding holds an IO value subscription for exactly the valid routes it has called for |
| `IoValues.RequestsServe` | src/com/communication-manager.ts:1352-1419 | So the requests an agent makes in handling Associate events leave its binding with exactly one IO value subscription per observed valid route |
| `IoValues.RequestsUnderstand` | src/com/communication-manager.ts:1004-1010 | What a source publishes can be handed over by every binding that serves its actors: no subscription on the route of a raw source asks for decoding |
| `IoValues.HandedOverAsPublished` | src/com/mqtt/mqtt-binding.ts:550-566 | An IO value is handed over with its topic, and decoded exactly if its source does not publish raw values |
| `IoValues.MatchesItself` | src/com/mqtt/mqtt-topic.ts:161-172 | A valid publication topic, used as a filter, matches itself |
| `IoValues.ObserverReceives` | src/com/communication-manager.ts:1172-1185 | A value on a route is handed to an actor once if the actor observes the route and its values are observed, else not at all |
| `IoValues.ExactlyAssociatedActorsReceive` | src/com/communication-manager.ts:679-688 | In every reachable state of every run whose configuration gives sources their own routes: once the Associate events for the two agents are delivered, a value published by a source of one is handed exactly once to each observed actor of the other that the router associates with the source, and to no other; it is decoded exactly if the source does not publish raw values |
| `IoValues.ValuesFollowRules` | src/io-routing/rule-based-io-router.ts:175-220 | So the value is handed exactly once to each observed actor that agrees with the source in value type and raw values and for which an applicable rule of the router holds with that source, and to no other |
| `MqttTopic.ParseTopicName` | src/com/mqtt/mqtt-topic.ts:62-80 | Parsing a published topic recovers version, namespace, event type, event filter, source id and correlation id |
| `MqttTopic.PrintParsedTopic` | src/com/mqtt/mqtt-topic.ts:62-109 | Printing the components of a parsed topic gives the topic back, if it has the levels of its event type in printed form |
| `MqttTopic.JoinSplit` | src/com/mqtt/mqtt-topic.ts:68-68 | Splitting a topic at slashes loses nothing |
| `MqttTopic.ParseEventLevel` | src/com/mqtt/mqtt-topic.ts:232-237 | The event level parses back into event type and filter, also for filters that contain or begin with a colon |
| `MqttTopic.TypeOfCode` | src/com/mqtt/mqtt-topic.ts:260-296 | The codes of the event types are pairwise different |
| `MqttTopic.TopicNameLevels` | src/com/mqtt/mqtt-topic.ts:92-109 | A topic name has exactly the levels protocol, version, namespace, event and source, and for two-way events the correlation id |
| `MqttTopic.TopicFilterLevels` | src/com/mqtt/mqtt-topic.ts:121-137 | A topic filter has the same levels, with wildcards for what is left open |
| `MqttTopic.EventLevelIsLevel` | src/com/mqtt/mqtt-topic.ts:100-103 | An event level without slash in its filter is a single topic level |
| `MqttTopic.EventLevelInjective` | src/com/mqtt/mqtt-topic.ts:127-130 | Two event levels are equal iff event types and filters agree |
| `MqttTopic.Matches` | src/com/mqtt/mqtt-topic.ts:184-226 | The loop answers as MQTT 3.1.1 levels demand, or accepts a filter ending in # whose surplus levels are + or empty |
| `MqttTopic.MatchesIsMqtt311` | src/com/mqtt/mqtt-topic.ts:184-226 | The answer agrees with sections 4.7.1 and 4.7.2 of MQTT 3.1.1 iff the filter does not overmatch and no leading wildcard meets a topic beginning with $ |
| `MqttTopic.MatchesLongTopics` | src/com/mqtt/mqtt-topic.ts:184-226 | In particular it agrees for topics not beginning with $ that have all levels named before a final # |
| `MqttTopic.OvermatchExample` | src/com/mqtt/mqtt-topic.ts:208-217 | The filter a/+/# is matched by the topic a in the code, but not in MQTT 3.1.1 |
| `MqttTopic.NameMatchesFilter` | src/com/mqtt/mqtt-topic.ts:92-137 | A published topic matches a subscription filter iff version, event type and event filter agree, the namespace agrees or is left open, and for two-way events the correlation id agrees or is left open |
| `MqttTopic.GetUtf8BytesCount` | src/com/mqtt/mqtt-topic.ts:239-258 | The loop counts the bytes of all code units, between one and four for each |
| `MqttTopic.LengthTestIsSafe` | src/com/mqtt/mqtt-topic.ts:161-172 | The test on the string length, which saves counting bytes, does not change which topics are valid |
| `MqttSubscriptions.MqttSubscriptions.OnConnect` | src/com/mqtt/mqtt-binding.ts:400-405 | A clean session gets all issued subscriptions again |
| `MqttSubscriptions.MqttSubscriptions.OnSubscribe` | src/com/mqtt/mqtt-binding.ts:351-371 | A Raw topic that is invalid or a Coaty topic is ignored, as is an invalid IO route and an external one that is a Coaty topic; any other item is added or replaces the one with its type and filter, and the broker keeps exactly the issued filters |
| `MqttSubscriptions.MqttSubscriptions.AddSubscriptionItem` | src/com/mqtt/mqtt-binding.ts:680-702 | The same for an accepted request, without creating duplicates |
| `MqttSubscriptions.MqttSubscriptions.OnUnsubscribe` | src/com/mqtt/mqtt-binding.ts:704-732 | The item with the type and filter is removed, and while connected the broker keeps exactly the filters of the remaining items |
| `MqttSubscriptions.MqttSubscriptions.DispatchMessage` | src/com/mqtt/mqtt-binding.ts:541-583 | A JSON message on the topic of an event other than Raw and IO values is handed over once, with the type, filter, source and, for two-way events, correlation id it was published with; Raw events go once to exactly the matching Raw subscriptions; a topic without event level, or a payload that is to be decoded but cannot be, ends the hand-over |
| `MqttSubscriptions.MqttSubscriptions.SubscribeItems` | src/com/mqtt/mqtt-binding.ts:734-750 | While connected the filters of the items are added in the broker |
| `MqttSubscriptions.FilterDeterminesType` | src/com/mqtt/mqtt-topic.ts:121-137 | Subscription filters of different Coaty event types differ |
| `MqttSubscriptions.SharedFilter` | src/com/mqtt/mqtt-binding.ts:716-729 | Subscriptions of different event types never share a filter, except that a Raw and an IO value subscription may |
| `MqttSubscriptions.AddedFilters` | src/com/mqtt/mqtt-binding.ts:692-699 | Adding an item adds its type and filter, and creates no duplicate |
| `MqttSubscriptions.AddedItems` | src/com/mqtt/mqtt-binding.ts:692-699 | A new item takes the place of the one with its type and filter, and all others stay |
| `MqttSubscriptions.RemovedFilters` | src/com/mqtt/mqtt-binding.ts:706-714 | Removing an item removes its type and filter and nothing else |
| `MqttSubscriptions.RemovedNeeds` | src/com/mqtt/mqtt-binding.ts:716-731 | After a removal the filter is still needed iff the other of the two sharing event types is subscribed on it |
| `MqttSubscriptions.IoValueHandedOver` | src/com/mqtt/mqtt-binding.ts:550-566 | An IO value is handed over exactly once if its route is subscribed as an IO value, else not at all, unless decoding fails for some subscription |
| `MqttSubscriptions.NothingAfterThrow` | src/com/mqtt/mqtt-binding.ts:550-582 | After a subscription whose decoding fails, no further subscription gets the message |
| `MqttSubscriptions.CoatyEventHandedOver` | src/com/mqtt/mqtt-binding.ts:571-579 | The first of these, for all components and whatever is subscribed |
| `MqttSubscriptions.RawHandedOver` | src/com/mqtt/mqtt-binding.ts:545-566 | The second: for exactly the Raw subscriptions whose filters match by MQTT 3.1.1 or beyond it, in order, once each, decoded iff asked for |
| `MqttSubscriptions.RequestedEventsMatch` | src/com/mqtt/mqtt-binding.ts:492-506 | A subscription for a Coaty event matches exactly the published events of its type and filter, under its namespace if given, and with its correlation id if given and two-way |
| `MqttPublications.MqttPublications.OnJoin` | src/com/mqtt/mqtt-binding.ts:228-306 | Joining creates the client and remembers join and unjoin events, in the initial state only |
| `MqttPublications.MqttPublications.OnPublish` | src/com/mqtt/mqtt-binding.ts:338-349 | Queues the event at the end and starts draining, unless the binding is unjoined; what that means over runs is stated by AskedForIsQueued |
| `MqttPublications.MqttPublications.OnConnect` | src/com/mqtt/mqtt-binding.ts:400-415 | Queues each join event whose topic is not pending at the front, in the given order, and restarts draining |
| `MqttPublications.MqttPublications.OnPublishCallback` | src/com/mqtt/mqtt-binding.ts:660-674 | A failure stops draining and notifies all pending items; a success removes the item if it is still pending, notifies it, and hands over the next one |
| `MqttPublications.MqttPublications.OnUnjoin` | src/com/mqtt/mqtt-binding.ts:308-336 | Queues the unjoin event last, with a callback, or resets at once if there is no client |
| `MqttPublications.MqttPublications.AddPublicationItem` | src/com/mqtt/mqtt-binding.ts:608-633 | Queues an item first or last, once if demanded; an item that cannot be composed or is pending already is reported as failed |
| `MqttPublications.MqttPublications.DoDrainPublications` | src/com/mqtt/mqtt-binding.ts:643-676 | Hands over the first pending item, or stops draining if there is none or no client |
| `MqttPublicationRuns.NothingIsLost` | src/com/mqtt/mqtt-binding.ts:608-676 | In every interleaving each item ever queued is either pending, acknowledged or discarded by the final reset, and in one place only |
| `MqttPublicationRuns.SuccessIsReportedOnce` | src/com/mqtt/mqtt-binding.ts:660-674 | In every interleaving, callbacks report success exactly for the acknowledged items that have one, in order, and once for each |
| `MqttPublicationRuns.OrdinaryItemsInOrder` | src/com/mqtt/mqtt-binding.ts:643-676 | In every interleaving an ordinary item is handed to the client exactly in its turn: all ordinary items queued before it are acknowledged; the unjoin event goes out after all ordinary items |
| `MqttPublicationRuns.NoLostWakeup` | src/com/mqtt/mqtt-binding.ts:635-676 | While connected a non-empty queue always has a publication under way, unless a publication has failed and nothing was published since; then draining can start anew |
| `MqttPublicationRuns.JoinEventsComeFirst` | src/com/mqtt/mqtt-binding.ts:407-415 | With distinct join topics that ordinary items do not use, the queue becomes all join events in order on each connect, then the ordinary items in their old order, also after connections that broke off midway, and its first item is handed over; this needs that no publication still outstanding at a connect is for a pending join event other than the first |
| `MqttPublicationRuns.LateCallbackBreaksOrder` | src/com/mqtt/mqtt-binding.ts:660-674 | The condition is needed: from any other connect, calling that publication back, disconnecting and connecting again puts its join event before the first one |
| `MqttPublicationRuns.JoinEventsOutOfOrder` | src/com/mqtt/mqtt-binding.ts:660-674 | A concrete run with two join events that ends up so |
| `MqttPublicationRuns.StepKeepsInv` | src/com/mqtt/mqtt-binding.ts:308-349 | Every single event keeps the ledger of queued items and their order |
| `MqttPublicationRuns.FollowKeepsWakeful` | src/com/mqtt/mqtt-binding.ts:400-442 | Every single event keeps the queue from stalling; connecting, publishing and unjoining restart draining after a failure |
| `MqttPublicationRuns.StepKeepsSorted` | src/com/mqtt/mqtt-binding.ts:400-442 | Every single event keeps the remaining join events first, and every outstanding publication is for the first pending item, an ordinary one, or one no longer pending |
| `MqttPublicationRuns.AddJoinsSorts` | src/com/mqtt/mqtt-binding.ts:407-415 | Queueing the join events from the last to the first puts exactly the missing ones in front, in order |
| `MqttPublicationRuns.HandedIsFirst` | src/com/mqtt/mqtt-binding.ts:655-674 | An ordinary item that was handed over and is still pending has no ordinary item before it |
| `MqttPublicationHistory.AskedForIsQueued` | src/com/mqtt/mqtt-binding.ts:308-349 | In every run the ordinary items ever queued are, in order, the publications before unjoining that can be composed, then the unjoin event with its callback if there is a client: none is lost and none is added |
| `MqttPublicationHistory.EverythingAskedForIsKept` | src/com/mqtt/mqtt-binding.ts:608-676 | In every run these are, in order, acknowledged, pending, or discarded after unjoining |
| `MqttPublicationHistory.StateFromEvents` | src/com/mqtt/mqtt-binding.ts:228-336 | Phase, join events, unjoin event and client are those of the first join before unjoining; the client stays until it has ended |
| `MqttPublicationHistory.AcknowledgedIffConfirmed` | src/com/mqtt/mqtt-binding.ts:660-674 | In every run exactly the items whose publish call was answered with success are acknowledged, unless discarded by then |
| `MqttPublicationHistory.FailureTellsUnjoin` | src/com/mqtt/mqtt-binding.ts:656-667 | A failure keeps all items pending and is reported once to the publisher of the unjoin event if that is pending, and to nobody else |
| `MqttPublicationHistory.NothingHandedOffline` | src/com/mqtt/mqtt-binding.ts:423-442 | After a disconnect nothing is handed to the client until it connects again or answers an earlier call |
| `LikePattern.CreateLikeRegexp` | src/model/object-matcher.ts:182-214 | The emitted text, read as a regular expression, consists of the tokens of the pattern, and matches as LIKE does with wildcards that stop at line terminators |
| `LikePattern.EmittedParses` | src/model/object-matcher.ts:182-214 | Reading the emitted text yields the literals, any-one and any-sequence tokens of the escaped pattern |
| `LikePattern.LikeRegexpMeans` | src/model/object-matcher.ts:182-214 | For every pattern and string, the emitted text, read as an ECMAScript regular expression, matches iff LIKE does with wildcards that stop at line terminators; the copy of the compiler in the PostgreSQL adapter emits the same text, whose POSIX reading is not modelled |
| `LikePattern.AnySequenceSplits` | src/model/object-matcher.ts:204-207 | Matching any sequence by backtracking means splitting the string at some position |
| `LikePattern.MatchesAsLike` | src/model/object-filter.ts:245-272 | A string is matched as by LIKE under all patterns iff it has no line terminator |
| `LikePattern.PatternMatchesAsLike` | src/model/object-filter.ts:245-272 | A pattern matches all strings as by LIKE iff it has no unescaped wildcard |
| `QueryLoops.FetchInChunks` | src/db/adapter-postgres/postgres-adapter.ts:921-1046 | Reading chunks from a cursor terminates and makes the planned calls for the limited rows up to the first one that stops; with a take count that is not positive it makes none |
| `QueryLoops.FetchChunks` | src/db/adapter-postgres/postgres-adapter.ts:936-1018 | One chunk after the other, skipping rows before the first, until the action stops, all rows are taken or a chunk is not full |
| `QueryLoops.ReadCursor` | src/db/adapter-postgres/postgres-adapter.ts:1321-1327 | A cursor moves over some rows and fetches the next ones, as far as there are any |
| `QueryLoops.YieldChunk` | src/db/adapter-postgres/postgres-adapter.ts:960-990 | A chunk is yielded row by row until the action stops or all rows are taken |
| `QueryLoops.FetchOnce` | src/db/adapter-postgres/postgres-adapter.ts:1048-1105 | The loop over one result set makes the planned calls up to the first one that stops |
| `QueryLoops.FindObjects` | src/db/adapter-in-memory/in-memory-adapter.ts:245-315 | The in-memory scan makes the planned calls for the matching objects in range up to the first one that stops |
| `QueryLoops.YieldRow` | src/db/adapter-postgres/postgres-adapter.ts:962-986 | A row is yielded singly, or completes a batch exactly when the batch size is reached |
| `QueryLoops.YieldLast` | src/db/adapter-postgres/postgres-adapter.ts:992-1001 | A smaller last batch is yielded, or an empty one if there were no rows; the count is that of all submitted results |
| `QueryLoops.LoopsAgree` | src/db/adapter-in-memory/in-memory-adapter.ts:224-315 | For the same rows and actions the three loops make the same calls and yield the same pair, given a positive take count or none; for other counts it says exactly when they do |
| `QueryLoops.IteratesUnique` | src/db/db-operations.ts:563-600 | The documented behaviour leaves no choice: calls and result are determined by rows and action |
| `QueryLoops.PlannedCoversRows` | src/db/db-operations.ts:563-600 | The calls hand over every row once and in order |
| `QueryLoops.CallsAreNumbered` | src/db/db-operations.ts:563-581 | A forEach action is called once per row in order, and told how many rows came before |
| `QueryLoops.BatchSizes` | src/db/db-operations.ts:582-600 | All batches have the batch size except a smaller last one; it is empty only without rows; without a positive size there is one batch |
| `QueryLoops.ScannedAt` | src/db/adapter-in-memory/in-memory-adapter.ts:267-272 | The object at a position within skip and take counts is yielded at its place |
| `SqlTemplate.Sql` | src/db/db-operations.ts:382-426 | Builds the template read as text: its parts in order without their annotations, and between them the identifier, the literal, the text of the nested query, or a placeholder numbered on across nesting levels (a literal if parameters are embedded); the parameters are the plain values without annotation in reading order. This is the text of one flat query |
| `SqlTemplate.AppendValue` | src/db/db-operations.ts:398-422 | One value contributes an identifier for {IDENT}, a literal for {LIT}, else a nested query or a parameter, followed by the next part without its annotation |
| `SqlTemplate.PiecesConcat` | src/db/db-operations.ts:408-414 | The placeholders of a query are numbered on after the parameters of the query before it |
| `SqlTemplate.PiecesRead` | src/db/db-operations.ts:382-426 | The flat query of a template has the text and the parameters of the template as read |
| `SqlTemplate.NumberedInOrder` | src/db/db-operations.ts:415-423 | Placeholders read from left to right are numbered in ascending order iff no digit directly follows a value |
| `SqlTemplate.SubstitutedIsEmbedded` | src/db/db-operations.ts:415-423 | Replacing each placeholder by the literal of its parameter yields the text with embedded parameters |
| `SqlTemplate.BoundQueryMeansEmbedded` | src/db/db-operations.ts:382-426 | For every nested template the placeholders are numbered 1 to n in order of the parameters, and filling them in gives the template read with literals for its plain values |
| `Deep.Equals` | src/util/deep.ts:22-87 | Two values are equal iff they stand for the same tree, whatever the order of their keys; so equality is an equivalence |
| `Deep.EqualItems` | src/util/deep.ts:30-41 | Arrays are equal iff they have the same length and equal items |
| `Deep.EqualMembers` | src/util/deep.ts:47-83 | Objects are equal iff they have the same keys with equal values |
| `Deep.SameKeys` | src/util/deep.ts:49-76 | Equally many keys, all of them shared, are the same keys |
| `Deep.ContainsMeans` | src/util/deep.ts:138-163 | Unless the check throws, one value contains another iff it is within it as documented: all items inside some item, all properties inside the properties of the same names, and on top level an array may contain a primitive value |
| `Deep.NullFreeNeverThrows` | src/util/deep.ts:138-163 | Checking for a value without null never throws |
| `Deep.NeverThrowsIffNullFree` | src/util/deep.ts:138-163 | The check answers for all outer values iff there is no null anywhere in the inner one |
| `Deep.Thrower` | src/util/deep.ts:153-158 | From any inner value with null in it an outer value is made for which the check throws |
| `Deep.EqualValuesContained` | src/util/deep.ts:138-163 | Deep equal values contain each other, unless the check throws, for which it takes both null and an array |
| `Deep.NullThrows` | src/util/deep.ts:153-158 | An array with an object before null does not contain itself: the check throws |
| `Deep.Transitive` | src/util/deep.ts:138-163 | Containment is transitive as long as no object is compared with a non-empty array: the answer is never no, and yes without null |
| `Deep.NothingOverArray` | src/util/deep.ts:153-158 | No object contains a non-empty array if no object in the outer value has the key 0, or there is no array in the inner one |
| `Deep.TransitiveIffNoIndexKey` | src/util/deep.ts:138-163 | For an outer value without arrays, containment is transitive for all inner values iff no object in it has the key 0 |
| `Deep.IndexKeyNextToArray` | src/util/deep.ts:138-163 | With arrays the key alone does not decide: a value with that key for which containment is transitive |
| `Deep.IndexKeysBreakTransitivity` | src/util/deep.ts:153-158 | A concrete object with the key 0 for which it is not transitive |
| `Deep.Clone` | src/util/deep.ts:201-203 | Copying succeeds iff no object occurs twice, and yields the value without its undefined parts |
| `Deep.CloneDeep` | src/util/deep.ts:205-244 | The same relative to the objects seen before, which it collects |
| `Deep.CloneItems` | src/util/deep.ts:211-217 | Undefined array items become null |
| `Deep.CloneMembers` | src/util/deep.ts:228-241 | Undefined properties are dropped |
| `Deep.CopyIsEqual` | src/util/deep.ts:190-203 | A copy equals its original iff nothing inside the original is undefined |
| `Deep.CopyIsJson` | src/util/deep.ts:190-203 | Nothing inside a copy is undefined, and copying it again changes nothing |
| `Deep.CopyHoldsTheSame` | src/util/deep.ts:190-244 | At every path a copy has the same primitive values, arrays of the same length, and objects with the same keys but those of undefined properties; undefined array items become null |
| `Deep.SharedObjectIsRefused` | src/util/deep.ts:226-229 | An object that occurs twice is refused although nothing is circular |
| `ObjectLifecycle.ObjectLifecycleController.AddToRegistry` | src/controller/object-lifecycle-controller.ts:243-257 | Sets the object; reports it as added if its id is new, as changed if it is not deep equal to the one before, else not at all |
| `ObjectLifecycle.ObjectLifecycleController.RemoveFromRegistry` | src/controller/object-lifecycle-controller.ts:259-268 | Removes objects for all listed ids and reports them, or nothing if none was removed |
| `ObjectLifecycle.ObjectLifecycleController.UpdateRegistryOnRemove` | src/controller/object-lifecycle-controller.ts:270-288 | Removes and reports the children of an id in their order, then the object with this id |
| `ObjectLifecycle.ObjectLifecycleController.RemoveChildren` | src/controller/object-lifecycle-controller.ts:276-281 | Deleting while iterating visits every object once |
| `ObjectLifecycle.RemovesListed` | src/controller/object-lifecycle-controller.ts:259-288 | A deadvertisement removes and reports exactly the objects whose id or parent id is listed |
| `ObjectLifecycle.ReportedOnce` | src/controller/object-lifecycle-controller.ts:259-288 | Each removed object is reported once iff no listed object is its own parent |
| `ObjectLifecycle.ReportedInOrder` | src/controller/object-lifecycle-controller.ts:270-288 | The children are reported in the order of the registry, the object itself last |
| `ObjectLifecycle.ObserverRebuildsRegistry` | src/controller/object-lifecycle-controller.ts:219-288 | Over any sequence of advertisements and deadvertisements, folding the emitted records rebuilds the registry up to deep equality |
| `ObjectLifecycle.AdvertisedIsNews` | src/controller/object-lifecycle-controller.ts:243-257 | After any events an advertised object is reported as added iff an observer of the changes does not know its id, as changed iff it differs from what the observer knows, and not at all iff it is known as it is |
| `ObjectLifecycle.DeadvertisedIsNews` | src/controller/object-lifecycle-controller.ts:259-288 | After any events what is reported as removed is exactly what the observer knows and is listed by its own or its parent id; nothing is reported iff nothing known is listed |
| `TypedObservers.GetCoreTypeFor` | src/model/types.ts:158-168 | The loop finds the core type that an object type belongs to, if there is one |
| `TypedObservers.CoreTypeForInverts` | src/model/types.ts:151-168 | Core types and their object types determine each other |
| `TypedObservers.CommunicationManager.ObserveRequest` | src/com/communication-manager.ts:997-1021 | An observer joins the others of its request, which is subscribed exactly when it is not observed yet |
| `TypedObservers.CommunicationManager.DispatchEvent` | src/com/communication-manager.ts:1130-1163 | An event is emitted to exactly the observers of its request that pass their local filter |
| `TypedObservers.RequestIdInjective` | src/com/communication-manager.ts:1051-1057 | Different requests have different ids, as no event type name starts another one |
| `TypedObservers.FilterMatches` | src/com/communication-manager.ts:581-596 | A published filter meets the observed one and the local filter iff the observer wants the object, except for object type observers of inconsistent objects |
| `TypedObservers.WantedOnce` | src/com/communication-manager.ts:914-968 | Every observer receives every object it wants exactly once and no other, iff objects with a core object type have its core type |

## Left out

- Agents that stop and start again, or whose channel loses events: agents in the protocol subscribe once and stay. The clean-up on a stop is modelled as one operation.
- Several routers for one context in the protocol; that agents stay consistent under them is proved, that they mirror one of them is not claimed.
- IoRouting.AgentsMirrorRouter: an IO context keeps its name, as agents subscribe to Associate events by that name.
- IoRates.AgentsHoldRates: after a disassociation the agent holds no rate for a source that stays associated, as the code overwrites it with the rate of the event.
- The IO state shown to an actor that still has other sources when one of them goes, which can be wrong: `IoAgent.ActorStateIsTrue` says when it is true.
- The flag for external routes beyond route creation: the router stores it beside the route, but the event data do not transmit it.
- Overridden router methods: value type compatibility and nodes without IO source lists are those of the base class, with missing lists taken as empty.
- IoValues.ExactlyAssociatedActorsReceive: assumes that the broker forwards a message once to each client with a matching subscription, that values of sources without raw values are published as JSON, and that Raw events are observed as they come, as the communication manager does.
- IO source backpressure, timers, RxJS streams and their completion, and the delivery of messages inside MQTT.js and the broker.
- Payload encoding: an item that cannot be composed is one without topic. Raw publications on invalid topics, which are ignored before queueing, do not occur.
- The last will, and callbacks that arrive for a client that has ended.
- MqttPublicationRuns.JoinEventsComeFirst: assumes distinct join topics, as join events that share a topic are queued once.
- MqttTopic.ParseTopicName: version numbers are natural numbers in decimal notation; event levels named after properties that all JavaScript objects inherit are taken as unknown.
- Strings are sequences of Unicode characters; that JavaScript sees surrogate pairs as two characters matters only for byte counts, where it is modelled, and for single-character wildcards, where it is not.
- The equivalence of generated database queries with object filters, comparison operators other than LIKE, and string collation.
- QueryLoops.LoopsAgree: assumes a skip count that is not negative and no more rows than the largest safe integer; errors while fetching, joins, and the SQLite iterator are left out.
- RAW query builders inside SQL templates: they bring their own placeholders.
- SqlTemplate.BoundQueryMeansEmbedded: assumes that texts do not contain the placeholder sign and that no digit directly follows a value; otherwise the text means another query.
- Deep.Equals: dates, regular expressions, NaN, inherited properties and own properties named hasOwnProperty; identity of references, which is tried first, can only confirm what the comparison finds.
- Deep.Clone: values that are no JSON trees, such as circular structures, functions, dates and boxed primitives.
- Deep.ContainsMeans: where the check throws, nothing is said about which of the two values is within the other.
- Deep.EqualValuesContained: for equal values with both null and an array it is stated that they are never denied, not when the check throws, which depends on the order of the array items.
- Deep.Transitive: the test for the key 0 is exact for outer values without arrays; with arrays the condition is the one on the two values compared, which is sufficient.
- The filter that a lifecycle observer passes in, the discovery events behind it, and objects under a removed object's children, which the code keeps.
- Shape validation of objects, event data constructors, and the container.

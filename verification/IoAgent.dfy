/**
 * The agent side of IO routing: how a communication manager folds Associate events into
 * the routes of its own IO sources and into the routes its own IO actors observe.
 */
module IoAgent {
  import opened Prelude
  import opened IoModel

  /** The route of an own source, the actors on it, and its update rate. */
  datatype SourceItem = SourceItem(route: string, actorIds: seq<Uuid>, updateRate: Option<real>)

  type SourceItems = map<Uuid, SourceItem>

  /** By route: the own actors observing it, each with the sources it is associated with. */
  type ActorItems = map<string, map<Uuid, seq<Uuid>>>

  /** IO value subscriptions requested from the communication binding. */
  datatype BindingCall = Subscribe(route: string, isDataRaw: bool) | Unsubscribe(route: string)

  /** The routes subscribed and not yet unsubscribed. */
  function Subscribed(calls: seq<BindingCall>): set<string> {
    if calls == [] then {}
    else
      var last := calls[|calls| - 1];
      var before := Subscribed(calls[..|calls| - 1]);
      if last.Subscribe? then before + {last.route} else before - {last.route}
  }

  /** No route is subscribed while it is subscribed, or unsubscribed while it is not. */
  ghost predicate NoRedundantCall(calls: seq<BindingCall>) {
    forall i | 0 <= i < |calls| :: calls[i].Subscribe? <==> calls[i].route !in Subscribed(calls[..i])
  }

  /** The calls leave exactly the routes subscribed that own actors observe. */
  ghost predicate Observes(calls: seq<BindingCall>, items: ActorItems) {
    NoRedundantCall(calls) && Subscribed(calls) == items.Keys
  }

  lemma CallAppended(calls: seq<BindingCall>, call: BindingCall)
    requires NoRedundantCall(calls) && (call.Subscribe? <==> call.route !in Subscribed(calls))
    ensures NoRedundantCall(calls + [call])
    ensures Subscribed(calls + [call]) ==
            if call.Subscribe? then Subscribed(calls) + {call.route} else Subscribed(calls) - {call.route}
  {
    var t := calls + [call];
    assert t[..|calls|] == calls;
    forall i | 0 <= i < |t|
      ensures t[i].Subscribe? <==> t[i].route !in Subscribed(t[..i])
    {
      if i < |calls| {
        assert t[..i] == calls[..i];
      }
    }
  }

  lemma RouteUnsubscribed(calls: seq<BindingCall>, items: ActorItems, route: string)
    requires Observes(calls, items) && route in items
    ensures Observes(calls + [Unsubscribe(route)], items - {route})
  {
    hide NoRedundantCall, Subscribed;
    CallAppended(calls, Unsubscribe(route));
  }

  /** The calls made after `calls` unsubscribe routes, or are the given call. */
  ghost predicate AddsCalls(calls: seq<BindingCall>, calls': seq<BindingCall>, call: Option<BindingCall>) {
    calls <= calls' && forall c <- calls'[|calls|..] :: c.Unsubscribe? || call == Some(c)
  }

  lemma AddsCallsNext(calls: seq<BindingCall>, calls': seq<BindingCall>, c: BindingCall, call: Option<BindingCall>)
    requires AddsCalls(calls, calls', call) && (c.Unsubscribe? || call == Some(c))
    ensures AddsCalls(calls, calls' + [c], call)
  {
    assert (calls' + [c])[|calls|..] == calls'[|calls|..] + [c];
  }

  lemma NoCallsAdded(calls: seq<BindingCall>)
    ensures AddsCalls(calls, calls, None)
  {
  }

  lemma AddsCallsTwice(calls: seq<BindingCall>, calls': seq<BindingCall>, calls'': seq<BindingCall>,
                       call: Option<BindingCall>)
    requires AddsCalls(calls, calls', None) && AddsCalls(calls', calls'', call)
    ensures AddsCalls(calls, calls'', call)
  {
    assert calls''[|calls|..] == calls'[|calls|..] + calls''[|calls'|..];
  }

  // ---------------------------------------------------------------- links

  /** Actor `a` observes route `r` for source `s`. */
  predicate Linked(items: ActorItems, r: string, a: Uuid, s: Uuid) {
    r in items && a in items[r] && s in items[r][a]
  }

  /** Source `s` publishes on route `r` for actor `a`. */
  predicate Feeds(items: SourceItems, s: Uuid, r: string, a: Uuid) {
    s in items && items[s].route == r && a in items[s].actorIds
  }

  /** No inner map or id list is empty, and no id list has duplicates. */
  ghost predicate TidyActors(items: ActorItems) {
    forall r <- items ::
      && items[r] != map[]
      && forall a <- items[r] :: items[r][a] != [] && Distinct(items[r][a])
  }

  ghost predicate TidySources(items: SourceItems) {
    forall s <- items :: items[s].actorIds != [] && Distinct(items[s].actorIds)
  }

  // ---------------------------------------------------------------- dissolving actor links

  /** The entry of a route after source `s` is taken from actor `a`. */
  function DropFrom(actors: map<Uuid, seq<Uuid>>, s: Uuid, a: Uuid): map<Uuid, seq<Uuid>> {
    if a !in actors then actors
    else if RemoveFirst(actors[a], s) == [] then actors - {a}
    else actors[a := RemoveFirst(actors[a], s)]
  }

  /** The routes looked at: never the new one, and only the current one if it is given. */
  predicate LooksAt(route: string, current: string, newRoute: Option<string>) {
    newRoute != Some(route) && (current != "" ==> route == current)
  }

  /** The actor items after dissolving source `s` and actor `a` on the routes looked at. */
  function Dissolve(items: ActorItems, s: Uuid, a: Uuid, current: string, newRoute: Option<string>): ActorItems {
    map r | r in items && !(LooksAt(r, current, newRoute) && a in items[r] && DropFrom(items[r], s, a) == map[])
      :: if LooksAt(r, current, newRoute) then DropFrom(items[r], s, a) else items[r]
  }

  lemma DropFromLinks(actors: map<Uuid, seq<Uuid>>, s: Uuid, a: Uuid)
    requires forall b <- actors :: actors[b] != [] && Distinct(actors[b])
    ensures var after := DropFrom(actors, s, a);
            && (forall b <- after :: after[b] != [] && Distinct(after[b]))
            && (forall b, t :: (b in after && t in after[b]) <==>
                (b in actors && t in actors[b] && !(b == a && t == s)))
  {
    if a in actors {
      RemoveFirstMembers(actors[a], s);
    }
  }

  lemma DissolveLinks(items: ActorItems, s: Uuid, a: Uuid, current: string, newRoute: Option<string>)
    requires TidyActors(items)
    ensures var after := Dissolve(items, s, a, current, newRoute);
            && TidyActors(after)
            && (forall r <- after :: r in items)
            && (forall r, b, t :: Linked(after, r, b, t) <==>
                  Linked(items, r, b, t) && !(b == a && t == s && LooksAt(r, current, newRoute)))
  {
    var after := Dissolve(items, s, a, current, newRoute);
    forall r | r in items
      ensures r in after ==> after[r] != map[] && forall b <- after[r] :: after[r][b] != [] && Distinct(after[r][b])
      ensures forall b, t :: Linked(after, r, b, t) <==>
                  Linked(items, r, b, t) && !(b == a && t == s && LooksAt(r, current, newRoute))
    {
      DropFromLinks(items[r], s, a);
    }
  }

  /** Dissolves a source from several actors on one route. */
  function DissolveAll(items: ActorItems, s: Uuid, actorIds: seq<Uuid>, current: string): ActorItems {
    if actorIds == [] then items
    else
      Dissolve(DissolveAll(items, s, actorIds[..|actorIds| - 1], current), s, actorIds[|actorIds| - 1], current, None)
  }

  lemma {:induction false} DissolveAllLinks(items: ActorItems, s: Uuid, actorIds: seq<Uuid>, current: string)
    requires TidyActors(items)
    ensures var after := DissolveAll(items, s, actorIds, current);
            && TidyActors(after)
            && (forall r <- after :: r in items)
            && (forall r, b, t :: Linked(after, r, b, t) <==>
                  Linked(items, r, b, t) && !(b in actorIds && t == s && LooksAt(r, current, None)))
  {
    if actorIds != [] {
      var n := |actorIds| - 1;
      DissolveAllLinks(items, s, actorIds[..n], current);
      DissolveLinks(DissolveAll(items, s, actorIds[..n], current), s, actorIds[n], current, None);
    }
  }

  // ---------------------------------------------------------------- adding an actor link

  /** The actor items after source `s` and actor `a` are associated on `route`. */
  function Link(items: ActorItems, s: Uuid, a: Uuid, route: string): ActorItems {
    AddLink(Dissolve(items, s, a, "", Some(route)), s, a, route)
  }

  function AddLink(items: ActorItems, s: Uuid, a: Uuid, route: string): ActorItems {
    var actors := if route in items then items[route] else map[];
    var sourceIds := if a in actors then actors[a] else [];
    items[route := actors[a := if s in sourceIds then sourceIds else sourceIds + [s]]]
  }

  lemma AddLinkLinks(items: ActorItems, s: Uuid, a: Uuid, route: string)
    requires TidyActors(items)
    ensures var after := AddLink(items, s, a, route);
            && TidyActors(after)
            && (forall r, b, t :: Linked(after, r, b, t) <==>
                Linked(items, r, b, t) || (r == route && b == a && t == s))
  {
    var after := AddLink(items, s, a, route);
    assert a in after[route];
  }

  lemma LinkLinks(items: ActorItems, s: Uuid, a: Uuid, route: string)
    requires TidyActors(items)
    ensures var after := Link(items, s, a, route);
            && TidyActors(after)
            && (forall r, b, t :: Linked(after, r, b, t) <==>
                  if b == a && t == s then r == route else Linked(items, r, b, t))
  {
    hide Dissolve, AddLink, TidyActors;
    DissolveLinks(items, s, a, "", Some(route));
    AddLinkLinks(Dissolve(items, s, a, "", Some(route)), s, a, route);
  }

  // ---------------------------------------------------------------- handling an Associate event

  datatype AgentState = AgentState(sources: SourceItems, actors: ActorItems)

  function UpdateSource(st: AgentState, s: Uuid, a: Uuid, route: Option<string>, rate: Option<real>): AgentState {
    if route.Some? then
      if s !in st.sources then
        st.(sources := st.sources[s := SourceItem(route.value, [a], rate)])
      else if st.sources[s].route == route.value then
        var ids := st.sources[s].actorIds;
        st.(sources := st.sources[s := SourceItem(route.value, if a in ids then ids else ids + [a], rate)])
      else
        AgentState(st.sources[s := SourceItem(route.value, [a], rate)],
                   DissolveAll(st.actors, s, st.sources[s].actorIds, st.sources[s].route))
    else if s in st.sources then
      var ids := RemoveFirst(st.sources[s].actorIds, a);
      st.(sources := if ids == [] then st.sources - {s}
                     else st.sources[s := st.sources[s].(actorIds := ids, updateRate := rate)])
    else st
  }

  /** What an Associate event does to the routing state of an agent with the given own IO points. */
  function Handle(points: set<Uuid>, st: AgentState, e: AssociateEvent): AgentState {
    var st1 := if e.sourceId in points then UpdateSource(st, e.sourceId, e.actorId, e.route, e.updateRate) else st;
    if e.actorId !in points then st1
    else if e.route.Some? then st1.(actors := Link(st1.actors, e.sourceId, e.actorId, e.route.value))
    else st1.(actors := Dissolve(st1.actors, e.sourceId, e.actorId, "", None))
  }

  /** The one subscription an event may ask for: its route, with the raw flag of its actor. */
  function SubscriptionFor(ioPoints: map<Uuid, bool>, e: AssociateEvent): Option<BindingCall> {
    if e.actorId in ioPoints && e.route.Some? then Some(Subscribe(e.route.value, ioPoints[e.actorId])) else None
  }

  /**
   * Handling an event leads to the new state, and makes the calls that keep the subscriptions in
   * step: it subscribes the route of the event at most, for raw values iff its actor takes these.
   */
  ghost predicate Handles(ioPoints: map<Uuid, bool>, st: AgentState, calls: seq<BindingCall>, e: AssociateEvent,
                          st': AgentState, calls': seq<BindingCall>)
  {
    && st' == Handle(ioPoints.Keys, st, e)
    && Observes(calls', st'.actors)
    && AddsCalls(calls, calls', SubscriptionFor(ioPoints, e))
  }

  /** Each source and actor are linked on at most one route. */
  ghost predicate OneRoutePerPair(items: ActorItems) {
    forall r, q, a, s | Linked(items, r, a, s) && Linked(items, q, a, s) :: r == q
  }

  /** For own points, the source side and the actor side hold the same links. */
  ghost predicate SidesAgree(points: set<Uuid>, st: AgentState) {
    forall s, a, r | s in points && a in points :: Feeds(st.sources, s, r, a) <==> Linked(st.actors, r, a, s)
  }

  /** What holds of an agent after any sequence of Associate events. */
  ghost predicate Consistent(points: set<Uuid>, st: AgentState) {
    && TidySources(st.sources) && TidyActors(st.actors)
    && (forall s <- st.sources :: s in points)
    && (forall r <- st.actors, a <- st.actors[r] :: a in points)
    && OneRoutePerPair(st.actors)
    && SidesAgree(points, st)
  }

  lemma ConsistentIsTidy(points: set<Uuid>, st: AgentState)
    requires Consistent(points, st)
    ensures TidyActors(st.actors)
  {
  }

  /** What the sources feed after an event: its source changes to one route, the others stay. */
  lemma UpdateSourceFeeds(st: AgentState, s: Uuid, a: Uuid, route: Option<string>, rate: Option<real>)
    requires TidySources(st.sources)
    ensures var after := UpdateSource(st, s, a, route, rate).sources;
            && TidySources(after)
            && (forall t <- after :: t in st.sources || t == s)
            && (forall t, r, b :: Feeds(after, t, r, b) <==>
                  if t == s && b == a then route == Some(r)
                  else Feeds(st.sources, t, r, b) && (t == s && route.Some? ==> route == Some(r)))
  {
    if s in st.sources {
      RemoveFirstMembers(st.sources[s].actorIds, a);
    }
  }

  /** The event moves the source `s` to another route. */
  predicate Reroutes(st: AgentState, s: Uuid, route: Option<string>) {
    s in st.sources && route.Some? && st.sources[s].route != route.value
  }

  /** What the own actors observe after an update of a source: on a change of its route, its links there go. */
  lemma UpdateSourceLinks(st: AgentState, s: Uuid, a: Uuid, route: Option<string>, rate: Option<real>)
    requires TidyActors(st.actors)
    ensures var after := UpdateSource(st, s, a, route, rate).actors;
            && TidyActors(after)
            && (forall r <- after :: r in st.actors)
            && (forall r, b, t :: Linked(after, r, b, t) <==>
                  && Linked(st.actors, r, b, t)
                  && !(t == s && Reroutes(st, s, route) && b in st.sources[s].actorIds
                      && LooksAt(r, st.sources[s].route, None)))
  {
    if s in st.sources {
      DissolveAllLinks(st.actors, s, st.sources[s].actorIds, st.sources[s].route);
    }
  }

  lemma UpdateSourceAgrees(points: set<Uuid>, st: AgentState, s: Uuid, a: Uuid, route: Option<string>,
          rate: Option<real>)
    requires Consistent(points, st) && s in points
    ensures var after := UpdateSource(st, s, a, route, rate);
            && OneRoutePerPair(after.actors)
            && (forall t, b, r | t in points && b in points && !(t == s && b == a) ::
                  Feeds(after.sources, t, r, b) <==> Linked(after.actors, r, b, t))
  {
    hide UpdateSource, TidyActors, TidySources;
    UpdateSourceFeeds(st, s, a, route, rate);
    UpdateSourceLinks(st, s, a, route, rate);
    var after := UpdateSource(st, s, a, route, rate);
    forall b, r | b in points && b != a
      ensures Feeds(after.sources, s, r, b) <==> Linked(after.actors, r, b, s)
    {
      assert Feeds(st.sources, s, r, b) <==> Linked(st.actors, r, b, s);
    }
  }

  /** Actors that observe a route have a source there. */
  lemma ObserversLinked(points: set<Uuid>, before: ActorItems, after: ActorItems, a: Uuid)
    requires TidyActors(before) && TidyActors(after)
    requires forall r <- before, b <- before[r] :: b in points
    requires a in points
    requires forall r, b, t :: Linked(after, r, b, t) ==> Linked(before, r, b, t) || b == a
    ensures forall r <- after, b <- after[r] :: b in points
  {
    forall r, b | r in after && b in after[r]
      ensures b in points
    {
      assert Linked(after, r, b, after[r][b][0]);
    }
  }

  lemma HandleKeepsConsistent(points: set<Uuid>, st: AgentState, e: AssociateEvent)
    requires Consistent(points, st)
    ensures Consistent(points, Handle(points, st, e))
  {
    hide UpdateSource, Dissolve, Link, TidyActors, TidySources, LooksAt;
    var s, a := e.sourceId, e.actorId;
    var st1 := if s in points then UpdateSource(st, s, a, e.route, e.updateRate) else st;
    if s in points {
      UpdateSourceFeeds(st, s, a, e.route, e.updateRate);
      UpdateSourceLinks(st, s, a, e.route, e.updateRate);
      UpdateSourceAgrees(points, st, s, a, e.route, e.updateRate);
    }
    assert forall r, b, t :: Linked(st1.actors, r, b, t) ==> Linked(st.actors, r, b, t);
    var after := Handle(points, st, e);
    if a in points {
      if e.route.Some? {
        LinkLinks(st1.actors, s, a, e.route.value);
      } else {
        DissolveEverywhere(st1.actors, s, a);
      }
      ObserversLinked(points, st.actors, after.actors, a);
    } else if points != {} {
      var b :| b in points;
      ObserversLinked(points, st.actors, after.actors, b);
    }
  }

  lemma DissolveEverywhere(items: ActorItems, s: Uuid, a: Uuid)
    requires TidyActors(items)
    ensures var after := Dissolve(items, s, a, "", None);
            && TidyActors(after)
            && (forall r, b, t :: Linked(after, r, b, t) <==> Linked(items, r, b, t) && !(b == a && t == s))
  {
    DissolveLinks(items, s, a, "", None);
  }

  /** An agent after a sequence of Associate events. */
  function HandleAll(points: set<Uuid>, st: AgentState, events: seq<AssociateEvent>): AgentState {
    if events == [] then st
    else Handle(points, HandleAll(points, st, events[..|events| - 1]), events[|events| - 1])
  }

  const INITIAL := AgentState(map[], map[])

  /** Whatever routers publish, even inconsistent ones, an agent stays consistent. */
  lemma {:induction false} AlwaysConsistent(points: set<Uuid>, events: seq<AssociateEvent>)
    ensures Consistent(points, HandleAll(points, INITIAL, events))
  {
    if events != [] {
      AlwaysConsistent(points, events[..|events| - 1]);
      HandleKeepsConsistent(points, HandleAll(points, INITIAL, events[..|events| - 1]), events[|events| - 1]);
    }
  }

  // ---------------------------------------------------------------- the IO routing part of a communication manager

  /** An IO state notification for an observed own IO point. */
  datatype IoStateEvent = IoStateEvent(pointId: Uuid, hasAssociations: bool, updateRate: Option<real>)

  class CommunicationManager {
    const ioPoints: map<Uuid, bool>  // the own IO points, each with its flag for raw values
    var ioSourceItems: SourceItems
    var ioActorItems: ActorItems
    var observedIoStates: set<Uuid>
    var observedIoValues: set<Uuid>
    var bindingCalls: seq<BindingCall>
    var ioStates: seq<IoStateEvent>

    ghost function State(): AgentState
      reads this
    {
      AgentState(ioSourceItems, ioActorItems)
    }

    /** The consistency of the routing state, and exactly the observed routes are subscribed. */
    ghost predicate Valid()
      reads this
    {
      Consistent(ioPoints.Keys, State()) && Subscriptions()
    }

    ghost predicate Subscriptions()
      reads this`ioActorItems, this`bindingCalls
    {
      Observes(bindingCalls, ioActorItems)
    }

    constructor (ioPoints: map<Uuid, bool>)
      ensures Valid() && State() == INITIAL && this.ioPoints == ioPoints
      ensures bindingCalls == [] && ioStates == [] && observedIoStates == {} && observedIoValues == {}
    {
      this.ioPoints := ioPoints;
      ioSourceItems, ioActorItems, observedIoStates, observedIoValues := map[], map[], {}, {};
      bindingCalls, ioStates := [], [];
    }

    method HandleAssociate(e: AssociateEvent)
      requires Valid()
      modifies this
      ensures Valid() && Handles(ioPoints, old(State()), old(bindingCalls), e, State(), bindingCalls)
      ensures observedIoStates == old(observedIoStates) && observedIoValues == old(observedIoValues)
      ensures ioStates == old(ioStates) + SourceState(ioPoints.Keys, State(), e, observedIoStates)
                                        + ActorState(ioPoints.Keys, State(), e, observedIoStates)
    {
      var isSourceOwn, isActorOwn := e.sourceId in ioPoints, e.actorId in ioPoints;
      NoCallsAdded(bindingCalls);
      if !isSourceOwn && !isActorOwn {
        return;
      }
      hide Consistent, UpdateSource, Link, Dissolve, Observes, DissolveAll, LooksAt, AddsCalls;
      HandleKeepsConsistent(ioPoints.Keys, State(), e);
      assert TidyActors(ioActorItems) by {
        ConsistentIsTidy(ioPoints.Keys, State());
      }
      hide TidyActors;
      if isSourceOwn {
        UpdateSourceLinks(State(), e.sourceId, e.actorId, e.route, e.updateRate);
        UpdateIoSourceItems(e.sourceId, e.actorId, e.route, e.updateRate);
      }
      ghost var calls := bindingCalls;
      if isActorOwn {
        if e.route.Some? {
          AssociateIoActorItems(e.sourceId, e.actorId, e.route.value);
        } else {
          DisassociateIoActorItems(e.sourceId, e.actorId, "", None);
        }
        AddsCallsTwice(old(bindingCalls), calls, bindingCalls, SubscriptionFor(ioPoints, e));
      }
      DispatchIoStates(e);
    }

    /** Notifies the observers of the IO states of the event's own points. */
    method DispatchIoStates(e: AssociateEvent)
      requires Consistent(ioPoints.Keys, State())
      modifies this`ioStates
      ensures ioStates == old(ioStates) + SourceState(ioPoints.Keys, State(), e, observedIoStates)
                                        + ActorState(ioPoints.Keys, State(), e, observedIoStates)
    {
      assert TidyActors(ioActorItems) by {
        ConsistentIsTidy(ioPoints.Keys, State());
      }
      hide Consistent;
      if e.sourceId in ioPoints && e.sourceId in observedIoStates {
        var has := e.sourceId in ioSourceItems;
        var rate := if has then ioSourceItems[e.sourceId].updateRate else None;
        ioStates := ioStates + [IoStateEvent(e.sourceId, has, rate)];
      }
      if e.actorId in ioPoints && e.actorId in observedIoStates {
        var has := e.route.Some? && e.route.value in ioActorItems && e.actorId in ioActorItems[e.route.value] &&
                   |ioActorItems[e.route.value][e.actorId]| > 0;
        ioStates := ioStates + [IoStateEvent(e.actorId, has, None)];
      }
    }

    method UpdateIoSourceItems(s: Uuid, a: Uuid, route: Option<string>, rate: Option<real>)
      requires TidyActors(ioActorItems) && Subscriptions()
      modifies this`ioSourceItems, this`ioActorItems, this`bindingCalls
      ensures State() == UpdateSource(old(State()), s, a, route, rate)
      ensures TidyActors(ioActorItems) && Subscriptions() && AddsCalls(old(bindingCalls), bindingCalls, None)
    {
      if route.Some? {
        if s !in ioSourceItems {
          ioSourceItems := ioSourceItems[s := SourceItem(route.value, [a], rate)];
        } else {
          var items := ioSourceItems[s];
          if items.route == route.value {
            if a !in items.actorIds {
              items := items.(actorIds := items.actorIds + [a]);
            }
          } else {
            var previousRoute := items.route;
            items := items.(route := route.value);
            for i := 0 to |items.actorIds|
              invariant ioActorItems == DissolveAll(old(ioActorItems), s, items.actorIds[..i], previousRoute)
              invariant TidyActors(ioActorItems) && Subscriptions() && AddsCalls(old(bindingCalls), bindingCalls, None)
              invariant ioSourceItems == old(ioSourceItems)
            {
              assert items.actorIds[..i + 1][..i] == items.actorIds[..i];
              ghost var calls := bindingCalls;
              DisassociateIoActorItems(s, items.actorIds[i], previousRoute, None);
              AddsCallsTwice(old(bindingCalls), calls, bindingCalls, None);
            }
            assert items.actorIds[..|items.actorIds|] == items.actorIds;
            items := items.(actorIds := [a]);
          }
          items := items.(updateRate := rate);
          ioSourceItems := ioSourceItems[s := items];
        }
      } else if s in ioSourceItems {
        var items := ioSourceItems[s];
        items := items.(actorIds := RemoveFirst(items.actorIds, a), updateRate := rate);
        ioSourceItems := if |items.actorIds| == 0 then ioSourceItems - {s} else ioSourceItems[s := items];
      }
    }

    method AssociateIoActorItems(s: Uuid, a: Uuid, route: string)
      requires TidyActors(ioActorItems) && Subscriptions() && a in ioPoints
      modifies this`ioActorItems, this`bindingCalls
      ensures ioActorItems == Link(old(ioActorItems), s, a, route)
      ensures Subscriptions() && AddsCalls(old(bindingCalls), bindingCalls, Some(Subscribe(route, ioPoints[a])))
    {
      hide Dissolve, TidyActors, AddLink, AddsCalls;
      DisassociateIoActorItems(s, a, "", Some(route));
      ghost var calls := bindingCalls;
      AddIoActorItems(s, a, route);
      AddsCallsTwice(old(bindingCalls), calls, bindingCalls, Some(Subscribe(route, ioPoints[a])));
    }

    /** Adds the source to the actor on the route, which is subscribed if it is new. */
    method AddIoActorItems(s: Uuid, a: Uuid, route: string)
      requires Subscriptions() && a in ioPoints
      modifies this`ioActorItems, this`bindingCalls
      ensures ioActorItems == AddLink(old(ioActorItems), s, a, route)
      ensures Subscriptions() && AddsCalls(old(bindingCalls), bindingCalls, Some(Subscribe(route, ioPoints[a])))
    {
      assert [] + [s] == [s];
      if route !in ioActorItems {
        ioActorItems := ioActorItems[route := map[a := [s]]];
        CallAppended(bindingCalls, Subscribe(route, ioPoints[a]));
        bindingCalls := bindingCalls + [Subscribe(route, ioPoints[a])];
      } else {
        var items := ioActorItems[route];
        if a !in items {
          items := items[a := [s]];
        } else if s !in items[a] {
          items := items[a := items[a] + [s]];
        } else {
          assert items == items[a := items[a]];
        }
        ioActorItems := ioActorItems[route := items];
      }
    }

    /** A `current` route of "" stands for no current route, which is how the code treats it. */
    method DisassociateIoActorItems(s: Uuid, a: Uuid, current: string, newRoute: Option<string>)
      requires TidyActors(ioActorItems) && Subscriptions()
      modifies this`ioActorItems, this`bindingCalls
      ensures ioActorItems == Dissolve(old(ioActorItems), s, a, current, newRoute)
      ensures TidyActors(ioActorItems) && Subscriptions() && AddsCalls(old(bindingCalls), bindingCalls, None)
    {
      DissolveLinks(ioActorItems, s, a, current, newRoute);
      ghost var before := ioActorItems;
      var routesToUnsubscribe := DropFromRoutes(s, a, current, newRoute);
      DroppedIsDissolved(before, ioActorItems, routesToUnsubscribe, s, a, current, newRoute);
      hide Dissolve, LooksAt, DropFrom, TidyActors, Emptied;
      UnsubscribeRoutes(routesToUnsubscribe);
    }

    method UnsubscribeRoutes(routes: set<string>)
      requires routes <= ioActorItems.Keys && Subscriptions()
      modifies this`ioActorItems, this`bindingCalls
      ensures ioActorItems == old(ioActorItems) - routes && Subscriptions()
      ensures AddsCalls(old(bindingCalls), bindingCalls, None)
    {
      hide Observes;
      var todo := routes;
      while todo != {}
        invariant todo <= routes
        invariant ioActorItems == old(ioActorItems) - (routes - todo)
        invariant Subscriptions() && AddsCalls(old(bindingCalls), bindingCalls, None)
      {
        var route :| route in todo;
        todo := todo - {route};
        RouteUnsubscribed(bindingCalls, ioActorItems, route);
        AddsCallsNext(old(bindingCalls), bindingCalls, Unsubscribe(route), None);
        ioActorItems := ioActorItems - {route};
        bindingCalls := bindingCalls + [Unsubscribe(route)];
      }
    }

    /** Takes the source from the actor on all routes looked at; yields the routes this leaves empty. */
    method DropFromRoutes(s: Uuid, a: Uuid, current: string, newRoute: Option<string>)
      returns (emptied: set<string>)
      modifies this`ioActorItems
      ensures DroppedOnRoutes(old(ioActorItems), ioActorItems, emptied, s, a, current, newRoute)
    {
      ghost var before := ioActorItems;
      ghost var on: set<string> := {};  // the routes dealt with
      emptied := {};
      var todo := if current != "" then (if current in ioActorItems then {current} else {}) else ioActorItems.Keys;
      assert forall r :: r in todo <==> r in before && LooksAt(r, current, None);
      assert before == DroppedOn(before, on, s, a);
      hide DropFrom, DroppedOn, LooksAt;
      while todo != {}
        invariant forall r <- todo :: r in before && LooksAt(r, current, None)
        invariant forall r <- on :: r in before && LooksAt(r, current, None) && newRoute != Some(r) && r !in todo
        invariant forall r <- before :: LooksAt(r, current, None) && newRoute != Some(r) ==> r in todo || r in on
        invariant ioActorItems == DroppedOn(before, on, s, a)
        invariant forall r :: r in emptied <==> r in on && a in before[r] && DropFrom(before[r], s, a) == map[]
      {
        var route :| route in todo;
        todo := todo - {route};
        if newRoute != Some(route) {
          DropOnOneMore(before, on, route, s, a);
          var isEmptied := DropFromRoute(route, s, a);
          if isEmptied {
            emptied := emptied + {route};
          }
          on := on + {route};
        }
      }
      DroppedOnAll(before, on, emptied, s, a, current, newRoute);
    }

    method DropFromRoute(route: string, s: Uuid, a: Uuid) returns (isEmptied: bool)
      requires route in ioActorItems
      modifies this`ioActorItems
      ensures ioActorItems == old(ioActorItems)[route := DropFrom(old(ioActorItems)[route], s, a)]
      ensures isEmptied == (a in old(ioActorItems)[route] && ioActorItems[route] == map[])
    {
      isEmptied := false;
      var items := ioActorItems[route];
      if a in items {
        var sourceIds := RemoveFirst(items[a], s);
        if |sourceIds| == 0 {
          items := items - {a};
        } else {
          items := items[a := sourceIds];
        }
        ioActorItems := ioActorItems[route := items];
        isEmptied := |items| == 0;
      } else {
        assert ioActorItems == ioActorItems[route := items];
      }
    }

    /**
     * Cleaning up on a stop: all observers of IO states are told that there are no
     * associations, all IO value subscriptions are dropped, and all routing state is forgotten.
     */
    method UnobserveObservedItems()
      requires Valid()
      modifies this
      ensures Valid() && State() == INITIAL && observedIoStates == {} && observedIoValues == {}
      ensures old(ioStates) <= ioStates && AreFinal(ioStates[|old(ioStates)|..], old(observedIoStates))
      ensures old(bindingCalls) <= bindingCalls
    {
      DispatchFinalStates();
      UnsubscribeAll();
      ioSourceItems, ioActorItems, observedIoStates, observedIoValues := map[], map[], {}, {};
    }

    method DispatchFinalStates()
      modifies this`ioStates
      ensures old(ioStates) <= ioStates && AreFinal(ioStates[|old(ioStates)|..], observedIoStates)
    {
      var todo := observedIoStates;
      while todo != {}
        invariant todo <= observedIoStates
        invariant old(ioStates) <= ioStates && AreFinal(ioStates[|old(ioStates)|..], observedIoStates - todo)
      {
        var id :| id in todo;
        todo := todo - {id};
        ghost var before := ioStates[|old(ioStates)|..];
        ioStates := ioStates + [IoStateEvent(id, false, None)];
        assert ioStates[|old(ioStates)|..] == before + [IoStateEvent(id, false, None)];
        FinalAppended(before, observedIoStates - todo - {id}, id);
        assert observedIoStates - todo - {id} + {id} == observedIoStates - todo;
      }
    }

    method UnsubscribeAll()
      requires Subscriptions()
      modifies this`bindingCalls
      ensures NoRedundantCall(bindingCalls) && Subscribed(bindingCalls) == {} && old(bindingCalls) <= bindingCalls
    {
      var todo := ioActorItems.Keys;
      while todo != {}
        invariant NoRedundantCall(bindingCalls) && Subscribed(bindingCalls) == todo && old(bindingCalls) <= bindingCalls
      {
        var route :| route in todo;
        todo := todo - {route};
        CallAppended(bindingCalls, Unsubscribe(route));
        bindingCalls := bindingCalls + [Unsubscribe(route)];
      }
    }

    /** Starts observing the IO state of a point; yields its initial state if it is not observed yet. */
    method ObserveIoState(pointId: Uuid) returns (initial: Option<IoStateEvent>)
      modifies this`observedIoStates
      ensures observedIoStates == old(observedIoStates) + {pointId}
      ensures initial.None? <==> pointId in old(observedIoStates)
      ensures initial.Some? ==> initial.value == InitialState(State(), pointId)
    {
      if pointId in observedIoStates {
        return None;
      }
      observedIoStates := observedIoStates + {pointId};
      if pointId in ioSourceItems {
        return Some(IoStateEvent(pointId, true, ioSourceItems[pointId].updateRate));
      }
      var hasAssociations := false;
      var todo := ioActorItems.Keys;
      while todo != {}
        invariant todo <= ioActorItems.Keys
        invariant hasAssociations <==> exists r <- ioActorItems.Keys - todo :: pointId in ioActorItems[r]
      {
        var route :| route in todo;
        todo := todo - {route};
        if pointId in ioActorItems[route] {
          hasAssociations := true;
        }
      }
      return Some(IoStateEvent(pointId, hasAssociations, None));
    }

    method ObserveIoValue(actorId: Uuid)
      modifies this`observedIoValues
      ensures observedIoValues == old(observedIoValues) + {actorId}
    {
      observedIoValues := observedIoValues + {actorId};
    }

    /** The route an IO value of source `s` is published on, if the source is associated at all. */
    method PublishIoValue(s: Uuid) returns (topic: Option<string>)
      ensures topic == PublicationRoute(State(), s)
    {
      topic := if s in ioSourceItems then Some(ioSourceItems[s].route) else None;
    }

    /** The own actors an IO value arriving for the subscription `route` is handed to, if observed, in some order. */
    method DispatchIoValue(route: string) returns (receivers: seq<Uuid>)
      ensures Distinct(receivers)
      ensures forall a :: a in receivers <==> a in Observers(State(), route) && a in observedIoValues
    {
      receivers := [];
      if route in ioActorItems {
        var todo := ioActorItems[route].Keys;
        while todo != {}
          invariant todo <= ioActorItems[route].Keys
          invariant Distinct(receivers)
          invariant forall a :: a in receivers <==> a in ioActorItems[route].Keys - todo && a in observedIoValues
        {
          var a :| a in todo;
          assert a !in receivers;
          if a in observedIoValues {
            receivers := receivers + [a];
          }
          todo := todo - {a};
        }
      }
    }
  }

  /** `after` lacks the source at the actor on all routes looked at; `emptied` are the routes left empty by that. */
  ghost predicate DroppedOnRoutes(before: ActorItems, after: ActorItems, emptied: set<string>,
                                  s: Uuid, a: Uuid, current: string, newRoute: Option<string>)
  {
    && after.Keys == before.Keys && emptied <= after.Keys
    && (forall r <- after :: after[r] == if LooksAt(r, current, newRoute) then DropFrom(before[r], s, a) else before[r])
    && (forall r :: r in emptied <==> Emptied(before, r, s, a, current, newRoute))
  }

  /** The source is taken from the actor on the given routes. */
  ghost function DroppedOn(items: ActorItems, on: set<string>, s: Uuid, a: Uuid): ActorItems {
    map r | r in items :: if r in on then DropFrom(items[r], s, a) else items[r]
  }

  lemma DropOnOneMore(items: ActorItems, on: set<string>, route: string, s: Uuid, a: Uuid)
    requires route in items && route !in on
    ensures DroppedOn(items, on, s, a)[route := DropFrom(items[route], s, a)] == DroppedOn(items, on + {route}, s, a)
    ensures route in DroppedOn(items, on, s, a) && DroppedOn(items, on, s, a)[route] == items[route]
  {
    hide DropFrom;
  }

  lemma DroppedOnAll(before: ActorItems, on: set<string>, emptied: set<string>,
                     s: Uuid, a: Uuid, current: string, newRoute: Option<string>)
    requires forall r :: r in on <==> r in before && LooksAt(r, current, None) && newRoute != Some(r)
    requires forall r :: r in emptied <==> r in on && a in before[r] && DropFrom(before[r], s, a) == map[]
    ensures DroppedOnRoutes(before, DroppedOn(before, on, s, a), emptied, s, a, current, newRoute)
  {
    hide DropFrom;
  }

  lemma DroppedIsDissolved(before: ActorItems, after: ActorItems, emptied: set<string>,
                           s: Uuid, a: Uuid, current: string, newRoute: Option<string>)
    requires DroppedOnRoutes(before, after, emptied, s, a, current, newRoute)
    ensures after - emptied == Dissolve(before, s, a, current, newRoute)
  {
    hide LooksAt, DropFrom;
  }

  ghost predicate Emptied(items: ActorItems, r: string, s: Uuid, a: Uuid, current: string, newRoute: Option<string>) {
    r in items && LooksAt(r, current, newRoute) && a in items[r] && DropFrom(items[r], s, a) == map[]
  }

  /** Exactly the given points are told, once each, that they have no associations. */
  ghost predicate AreFinal(events: seq<IoStateEvent>, points: set<Uuid>) {
    && Distinct(events)
    && (forall e <- events :: e.pointId in points && e == IoStateEvent(e.pointId, false, None))
    && (forall p <- points :: IoStateEvent(p, false, None) in events)
  }

  lemma FinalAppended(events: seq<IoStateEvent>, points: set<Uuid>, id: Uuid)
    requires AreFinal(events, points) && id !in points
    ensures AreFinal(events + [IoStateEvent(id, false, None)], points + {id})
  {
  }

  /** The state of a point that is not observed yet. */
  ghost function InitialState(st: AgentState, pointId: Uuid): IoStateEvent {
    if pointId in st.sources then IoStateEvent(pointId, true, st.sources[pointId].updateRate)
    else IoStateEvent(pointId, exists r <- st.actors :: pointId in st.actors[r], None)
  }

  /** The initial state of a point is true: it says whether the point is associated as a source or as an actor. */
  lemma InitialStateIsTrue(points: set<Uuid>, st: AgentState, pointId: Uuid)
    requires Consistent(points, st)
    ensures InitialState(st, pointId).hasAssociations <==>
            (exists r, a :: Feeds(st.sources, pointId, r, a)) || (exists r, s :: Linked(st.actors, r, pointId, s))
    ensures InitialState(st, pointId).updateRate ==
            if pointId in st.sources then st.sources[pointId].updateRate else None
  {
    hide OneRoutePerPair, SidesAgree;
    if pointId in st.sources {
      var item := st.sources[pointId];
      assert Feeds(st.sources, pointId, item.route, item.actorIds[0]);
    }
    if r :| r in st.actors && pointId in st.actors[r] {
      assert Linked(st.actors, r, pointId, st.actors[r][pointId][0]);
    }
  }

  function PublicationRoute(st: AgentState, s: Uuid): Option<string> {
    if s in st.sources then Some(st.sources[s].route) else None
  }

  /** The own actors that observe a route. */
  function Observers(st: AgentState, route: string): set<Uuid> {
    if route in st.actors then st.actors[route].Keys else {}
  }

  /** The state notification of the event's source: associated iff it still has an entry. */
  ghost function SourceState(points: set<Uuid>, st: AgentState, e: AssociateEvent, observed: set<Uuid>)
    : seq<IoStateEvent>
  {
    if e.sourceId in points && e.sourceId in observed then
      [if e.sourceId in st.sources then IoStateEvent(e.sourceId, true, st.sources[e.sourceId].updateRate)
       else IoStateEvent(e.sourceId, false, None)]
    else []
  }

  /** The state notification of the event's actor: associated iff it observes the route of the event. */
  ghost function ActorState(points: set<Uuid>, st: AgentState, e: AssociateEvent, observed: set<Uuid>)
    : seq<IoStateEvent>
  {
    if e.actorId in points && e.actorId in observed then
      [IoStateEvent(e.actorId, e.route.Some? && e.actorId in Observers(st, e.route.value), None)]
    else []
  }

  /** The state reported for a source is true: it says whether any actor is associated with it. */
  lemma SourceStateIsTrue(points: set<Uuid>, st: AgentState, e: AssociateEvent, observed: set<Uuid>)
    requires Consistent(points, st) && e.sourceId in points && e.sourceId in observed
    ensures var reported := SourceState(points, st, e, observed);
            && |reported| == 1 && reported[0].pointId == e.sourceId
            && (reported[0].hasAssociations <==> exists r, a :: Feeds(st.sources, e.sourceId, r, a))
            && reported[0].updateRate == if e.sourceId in st.sources then st.sources[e.sourceId].updateRate else None
  {
    hide TidyActors, OneRoutePerPair, SidesAgree;
    if e.sourceId in st.sources {
      var item := st.sources[e.sourceId];
      assert Feeds(st.sources, e.sourceId, item.route, item.actorIds[0]);
    }
  }

  /**
   * The state reported for an actor is true exactly if the event associates it, or the
   * actor had no source but the one of the event.
   */
  lemma ActorStateIsTrue(points: set<Uuid>, st: AgentState, e: AssociateEvent, observed: set<Uuid>)
    requires Consistent(points, st) && e.actorId in points && e.actorId in observed
    ensures var after := Handle(points, st, e);
            var reported := ActorState(points, after, e, observed);
            var isAssociated := exists r, s :: Linked(after.actors, r, e.actorId, s);
            && |reported| == 1 && reported[0].pointId == e.actorId
            && ((reported[0].hasAssociations <==> isAssociated) <==>
                e.route.Some? || forall r, s :: Linked(st.actors, r, e.actorId, s) ==> s == e.sourceId)
  {
    hide UpdateSource, Link, Dissolve, SidesAgree, OneRoutePerPair, TidySources;
    var after := Handle(points, st, e);
    if e.sourceId in points {
      UpdateSourceLinks(st, e.sourceId, e.actorId, e.route, e.updateRate);
    }
    var st1 := if e.sourceId in points then UpdateSource(st, e.sourceId, e.actorId, e.route, e.updateRate) else st;
    if e.route.None? {
      DissolveEverywhere(st1.actors, e.sourceId, e.actorId);
      assert forall r, s :: Linked(st1.actors, r, e.actorId, s) <==> Linked(st.actors, r, e.actorId, s);
    } else {
      LinkLinks(st1.actors, e.sourceId, e.actorId, e.route.value);
      assert Linked(after.actors, e.route.value, e.actorId, e.sourceId);
    }
  }
}

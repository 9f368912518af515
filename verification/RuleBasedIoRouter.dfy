/**
 * The rule-based IO router: it keeps the IO nodes of its context, reevaluates its rules
 * whenever nodes, rules or context change, and announces every change of its association
 * relation by Associate events.
 */
module RuleBasedIoRouter {
  import opened Prelude
  import opened IoModel
  import opened IoRules

  // ---------------------------------------------------------------- associations as a relation

  ghost predicate DistinctPairs(s: seq<Association>) {
    forall i, j | 0 <= i < j < |s| :: s[i].Pair() != s[j].Pair()
  }

  /** The association list as a map from pairs. */
  ghost function AsMap(s: seq<Association>): (m: map<Pair, Association>)
    requires DistinctPairs(s)
    ensures forall i | 0 <= i < |s| :: s[i].Pair() in m && m[s[i].Pair()] == s[i]
    ensures forall p <- m :: m[p] in s && m[p].Pair() == p
  {
    map i | 0 <= i < |s| :: s[i].Pair() := s[i]
  }

  /** The nested association map as a map from pairs. */
  ghost function Flat(m: AssociationMap): map<Pair, Association> {
    map s, a | s in m && a in m[s] :: (s, a) := m[s][a]
  }

  lemma FlatAt(m: AssociationMap, p: Pair)
    ensures p in Flat(m) <==> p.0 in m && p.1 in m[p.0]
    ensures p in Flat(m) ==> Flat(m)[p] == m[p.0][p.1]
  {
    if p.0 in m && p.1 in m[p.0] {
      assert (p.0, p.1) == p;
    }
  }

  /** Stores an entry under its own ids. */
  function Put(m: AssociationMap, entry: Association): AssociationMap {
    m[entry.source.objectId :=
      (if entry.source.objectId in m then m[entry.source.objectId] else map[])[entry.actor.objectId := entry]]
  }

  lemma FlatPut(m: AssociationMap, entry: Association)
    ensures Flat(Put(m, entry)) == Flat(m)[entry.Pair() := entry]
  {
    hide Flat;
    var after := Flat(m)[entry.Pair() := entry];
    forall p: Pair
      ensures p in Flat(Put(m, entry)) <==> p in after
      ensures p in after ==> Flat(Put(m, entry))[p] == after[p]
    {
      FlatAt(m, p);
      FlatAt(Put(m, entry), p);
      assert p == (p.0, p.1);
    }
    assert Flat(Put(m, entry)).Keys == after.Keys;
  }

  lemma WellKeyedPut(m: AssociationMap, entry: Association)
    requires WellKeyed(m)
    ensures WellKeyed(Put(m, entry))
  {
    assert entry.actor.objectId in Put(m, entry)[entry.source.objectId];
  }

  /** Deletes the entry for a source and an actor, and the entry of the source if it is empty then. */
  function Remove(m: AssociationMap, s: Uuid, a: Uuid): AssociationMap
    requires s in m
  {
    if m[s] - {a} == map[] then m - {s} else m[s := m[s] - {a}]
  }

  lemma FlatRemove(m: AssociationMap, p: Pair)
    requires p.0 in m && WellKeyed(m)
    ensures Flat(Remove(m, p.0, p.1)) == Flat(m) - {p}
    ensures WellKeyed(Remove(m, p.0, p.1))
  {
    hide Flat, WellKeyed, Remove;
    var after, r := Flat(m) - {p}, Remove(m, p.0, p.1);
    forall q: Pair
      ensures q in Flat(r) <==> q in after
      ensures q in after ==> Flat(r)[q] == after[q]
    {
      FlatAt(m, q);
      FlatAt(r, q);
      RemoveKeeps(m, p.0, p.1, q.0, q.1);
      assert q == p <==> q.0 == p.0 && q.1 == p.1;
    }
    assert Flat(r).Keys == after.Keys;
    WellKeyedRemove(m, p.0, p.1);
  }

  lemma RemoveKeeps(m: AssociationMap, s: Uuid, a: Uuid, t: Uuid, b: Uuid)
    requires s in m
    ensures var r := Remove(m, s, a);
            && ((t in r && b in r[t]) <==> (t in m && b in m[t] && !(t == s && b == a)))
            && (t in r && b in r[t] ==> r[t][b] == m[t][b])
  {
    assert forall c <- m[s] :: c == a || c in m[s] - {a};
  }

  lemma WellKeyedRemove(m: AssociationMap, s: Uuid, a: Uuid)
    requires s in m && WellKeyed(m)
    ensures WellKeyed(Remove(m, s, a))
  {
  }

  /** Entries are stored under their own ids, and no source has an empty entry. */
  ghost predicate WellKeyed(m: AssociationMap) {
    && (forall s <- m :: m[s] != map[])
    && (forall s <- m, a <- m[s] :: m[s][a].Pair() == (s, a))
  }

  lemma FlatEmpty()
    ensures Flat(map[]) == map[] && WellKeyed(map[])
  {
  }

  /** All associations of one source hold the same source object. */
  ghost predicate OneSourceObject(m: map<Pair, Association>) {
    forall p <- m, q <- m | p.0 == q.0 :: m[p].source == m[q].source
  }

  // ---------------------------------------------------------------- announcing changes

  /** The route a source gets when it has none yet. */
  function FreshRoute(source: IoSource, createIoRoute: Uuid -> string): string {
    if source.externalRoute.Some? && source.externalRoute.value != "" then source.externalRoute.value
    else createIoRoute(source.objectId)
  }

  function RouteFor(routes: map<Uuid, string>, source: IoSource, createIoRoute: Uuid -> string): string {
    if source.objectId in routes then routes[source.objectId] else FreshRoute(source, createIoRoute)
  }

  /** The one event owed for pair `p` when the associations change from `before` to `after`, if any. */
  ghost function ChangeFor(before: map<Pair, Association>, after: map<Pair, Association>,
                           routes: map<Uuid, string>, createIoRoute: Uuid -> string, p: Pair)
    : Option<AssociateEvent>
  {
    if p in after then
      if p !in before || before[p].rate != after[p].rate then
        Some(AssociateEvent(p.0, p.1, Some(RouteFor(routes, after[p].source, createIoRoute)), after[p].rate))
      else None
    else if p in before then Some(AssociateEvent(p.0, p.1, None, None))
    else None
  }

  ghost predicate DistinctEventPairs(events: seq<AssociateEvent>) {
    forall i, j | 0 <= i < j < |events| :: events[i].Pair() != events[j].Pair()
  }

  /**
   * `events` announces the change from `before` to `after` on the pairs `on`: every pair
   * that is owed an event gets that event exactly once, and nothing else is published.
   */
  ghost predicate Announces(events: seq<AssociateEvent>, before: map<Pair, Association>, after: map<Pair, Association>,
                            routes: map<Uuid, string>, createIoRoute: Uuid -> string, on: set<Pair>)
  {
    && DistinctEventPairs(events)
    && (forall e <- events :: e.Pair() in on && ChangeFor(before, after, routes, createIoRoute, e.Pair()) == Some(e))
    && (forall p <- on | ChangeFor(before, after, routes, createIoRoute, p).Some? ::
          ChangeFor(before, after, routes, createIoRoute, p).value in events)
  }

  /** The source routes after announcing `events`: old routes stay, announced sources have one. */
  ghost predicate RoutesFollow(routes: map<Uuid, string>, routes': map<Uuid, string>, events: seq<AssociateEvent>) {
    && (forall s <- routes :: s in routes' && routes'[s] == routes[s])
    && (forall s <- routes' :: s in routes || exists e <- events :: e.sourceId == s && e.route.Some?)
    && (forall e <- events | e.route.Some? :: e.sourceId in routes' && routes'[e.sourceId] == e.route.value)
  }

  /** Replaying events with pairwise different pairs: a pair is decided by its own event. */
  lemma {:induction false} ReplayDistinct(pairs: set<Pair>, events: seq<AssociateEvent>, p: Pair)
    requires DistinctEventPairs(events)
    ensures (forall e <- events :: e.Pair() != p) ==> (p in Replay(pairs, events) <==> p in pairs)
    ensures forall e <- events | e.Pair() == p :: p in Replay(pairs, events) <==> e.route.Some?
  {
    if events != [] {
      var n := |events| - 1;
      ReplayDistinct(pairs, events[..n], p);
      forall e | e in events && e.Pair() == p
        ensures p in Replay(pairs, events) <==> e.route.Some?
      {
        var i :| 0 <= i <= n && events[i] == e;
        if i < n {
          assert e in events[..n];
          assert events[n].Pair() != p;
        }
      }
    }
  }

  /** Replaying the announced events on the old relation gives the new one, in whatever order they come. */
  lemma AnnouncedReplay(events: seq<AssociateEvent>, before: map<Pair, Association>, after: map<Pair, Association>,
                        routes: map<Uuid, string>, createIoRoute: Uuid -> string)
    requires Announces(events, before, after, routes, createIoRoute, before.Keys + after.Keys)
    ensures Replay(before.Keys, events) == after.Keys
  {
    forall p: Pair
      ensures p in Replay(before.Keys, events) <==> p in after
    {
      ReplayDistinct(before.Keys, events, p);
      var change := ChangeFor(before, after, routes, createIoRoute, p);
      if change.Some? {
        assert p in before.Keys + after.Keys;
        assert change.value in events && change.value.Pair() == p;
      } else {
        assert forall e <- events :: e.Pair() != p;
      }
    }
  }

  // ---------------------------------------------------------------- single announcements

  lemma CurrentPair(s: seq<Association>, i: nat)
    requires DistinctPairs(s) && i < |s|
    ensures s[i].Pair() in AsMap(s) && AsMap(s)[s[i].Pair()] == s[i]
    ensures forall j | 0 <= j < i :: s[j].Pair() != s[i].Pair()
  {
  }

  lemma AsMapAppend(s: seq<Association>, a: Association)
    requires DistinctPairs(s) && a.Pair() !in AsMap(s)
    ensures DistinctPairs(s + [a])
    ensures AsMap(s + [a]) == AsMap(s)[a.Pair() := a]
  {
    hide AsMap;
    var t := s + [a];
    forall i | 0 <= i < |s|
      ensures s[i].Pair() != a.Pair()
    {
      assert s[i].Pair() in AsMap(s);
    }
    forall p
      ensures p in AsMap(t) <==> p in AsMap(s)[a.Pair() := a]
    {
      if p in AsMap(s) {
        var i :| 0 <= i < |s| && s[i] == AsMap(s)[p];
        assert t[i].Pair() == p;
      }
      if p == a.Pair() {
        assert t[|s|].Pair() == p;
      }
      if p in AsMap(t) {
        var i :| 0 <= i < |t| && t[i] == AsMap(t)[p];
        if i < |s| { assert s[i].Pair() == p; }
      }
    }
    forall p | p in AsMap(s)
      ensures AsMap(t)[p] == AsMap(s)[p]
    {
      var i :| 0 <= i < |s| && s[i] == AsMap(s)[p];
      assert t[i] == s[i];
    }
    assert t[|s|] == a;
  }

  lemma AllPairs(s: seq<Association>, on: set<Pair>)
    requires DistinctPairs(s)
    requires forall p :: p in on <==> exists j | 0 <= j < |s| :: s[j].Pair() == p
    ensures on == AsMap(s).Keys
  {
    hide AsMap;
    forall p | p in AsMap(s)
      ensures p in on
    {
      var j :| 0 <= j < |s| && s[j] == AsMap(s)[p];
      assert s[j].Pair() == p;
    }
  }

  lemma FlatPairs(m: AssociationMap)
    requires WellKeyed(m)
    ensures forall p <- Flat(m) :: Flat(m)[p].Pair() == p
  {
  }

  lemma NothingAnnounced(before: map<Pair, Association>, after: map<Pair, Association>,
                         routes: map<Uuid, string>, createIoRoute: Uuid -> string)
    ensures Announces([], before, after, routes, createIoRoute, {})
    ensures RoutesFollow(routes, routes, [])
    ensures DistinctPairs([]) && AsMap([]) == map[]
  {
  }

  lemma AnnounceOne(events: seq<AssociateEvent>, before: map<Pair, Association>, after: map<Pair, Association>,
                    routes: map<Uuid, string>, createIoRoute: Uuid -> string, on: set<Pair>, e: AssociateEvent)
    requires Announces(events, before, after, routes, createIoRoute, on)
    requires e.Pair() !in on && ChangeFor(before, after, routes, createIoRoute, e.Pair()) == Some(e)
    ensures Announces(events + [e], before, after, routes, createIoRoute, on + {e.Pair()})
  {
    hide ChangeFor;
    forall i | 0 <= i < |events|
      ensures events[i].Pair() != e.Pair()
    {
      assert events[i] in events;
    }
  }

  lemma DisassociateStep(events: seq<AssociateEvent>, before: map<Pair, Association>, after: map<Pair, Association>,
                         routes0: map<Uuid, string>, routes: map<Uuid, string>,
                         createIoRoute: Uuid -> string, on: set<Pair>, p: Pair)
    requires Announces(events, before, after, routes0, createIoRoute, on) && RoutesFollow(routes0, routes, events)
    requires p !in on && p in before && p !in after
    ensures var e := AssociateEvent(p.0, p.1, None, None);
            && Announces(events + [e], before, after, routes0, createIoRoute, on + {p})
            && RoutesFollow(routes0, routes, events + [e])
  {
    hide Announces;
    AnnounceOne(events, before, after, routes0, createIoRoute, on, AssociateEvent(p.0, p.1, None, None));
  }

  lemma KeepStep(events: seq<AssociateEvent>, before: map<Pair, Association>, after: map<Pair, Association>,
                 routes: map<Uuid, string>, createIoRoute: Uuid -> string, on: set<Pair>, p: Pair)
    requires Announces(events, before, after, routes, createIoRoute, on)
    requires p in before && p in after && before[p].rate == after[p].rate
    ensures Announces(events, before, after, routes, createIoRoute, on + {p})
  {
  }

  /** A source that already got a route in this round is announced on that route again. */
  lemma RouteKept(events: seq<AssociateEvent>, before: map<Pair, Association>, after: map<Pair, Association>,
                  routes0: map<Uuid, string>, routes: map<Uuid, string>,
                  createIoRoute: Uuid -> string, on: set<Pair>, p: Pair)
    requires Announces(events, before, after, routes0, createIoRoute, on) && RoutesFollow(routes0, routes, events)
    requires OneSourceObject(after) && p in after && after[p].source.objectId == p.0
    ensures RouteFor(routes, after[p].source, createIoRoute) == RouteFor(routes0, after[p].source, createIoRoute)
  {
    if p.0 in routes && p.0 !in routes0 {
      var e :| e in events && e.sourceId == p.0 && e.route.Some?;
      assert ChangeFor(before, after, routes0, createIoRoute, e.Pair()) == Some(e);
      assert after[e.Pair()].source == after[p].source;
    }
  }

  lemma AssociateStep(events: seq<AssociateEvent>, before: map<Pair, Association>, after: map<Pair, Association>,
                      routes0: map<Uuid, string>, routes: map<Uuid, string>,
                      createIoRoute: Uuid -> string, on: set<Pair>, p: Pair)
    requires Announces(events, before, after, routes0, createIoRoute, on) && RoutesFollow(routes0, routes, events)
    requires OneSourceObject(after) && p in after && after[p].Pair() == p
    requires p !in on && (p !in before || before[p].rate != after[p].rate)
    ensures var route := RouteFor(routes, after[p].source, createIoRoute);
            var e := AssociateEvent(p.0, p.1, Some(route), after[p].rate);
            && Announces(events + [e], before, after, routes0, createIoRoute, on + {p})
            && RoutesFollow(routes0, routes[p.0 := route], events + [e])
  {
    hide Announces;
    RouteKept(events, before, after, routes0, routes, createIoRoute, on, p);
    var route := RouteFor(routes, after[p].source, createIoRoute);
    var e := AssociateEvent(p.0, p.1, Some(route), after[p].rate);
    AnnounceOne(events, before, after, routes0, createIoRoute, on, e);
    var routes' := routes[p.0 := route];
    forall s | s in routes'
      ensures s in routes0 || exists d <- events + [e] :: d.sourceId == s && d.route.Some?
    {
      if s == p.0 {
        assert e in events + [e];
      } else if s !in routes0 {
        var d :| d in events && d.sourceId == s && d.route.Some?;
        assert d in events + [e];
      }
    }
  }

  // ---------------------------------------------------------------- router states and steps

  /** The values of all fields of a router. */
  datatype RouterState = RouterState(
    context: IoContext,
    nodes: seq<IoNode>,
    routes: map<Uuid, string>,
    rules: map<string, seq<Condition>>,
    associations: seq<Association>)
  {
    function Config(): Config { IoRules.Config(nodes, rules, context) }
  }

  /** One evaluation of all rules leads from `r` to `r'` and publishes `events`. */
  ghost predicate Evaluates(r: RouterState, r': RouterState, events: seq<AssociateEvent>, createIoRoute: Uuid -> string)
    requires DistinctPairs(r.associations)
  {
    && DistinctPairs(r'.associations)
    && r' == r.(routes := r'.routes, associations := r'.associations)
    && Resolved(r.Config(), AsMap(r'.associations))
    && Announces(events, AsMap(r.associations), AsMap(r'.associations), r.routes, createIoRoute,
                 AsMap(r.associations).Keys + AsMap(r'.associations).Keys)
    && RoutesFollow(r.routes, r'.routes, events)
  }

  function NodeIndex(nodes: seq<IoNode>, id: Uuid): (i: int)
    ensures -1 <= i < |nodes|
    ensures i == -1 <==> forall n <- nodes :: n.objectId != id
    ensures i >= 0 ==> nodes[i].objectId == id
  {
    if nodes == [] then -1
    else if nodes[0].objectId == id then 0
    else var i := NodeIndex(nodes[1..], id); if i == -1 then -1 else i + 1
  }

  /** Forgets the routes of the given sources, except those the readvertised node keeps. */
  function DropRoutes(routes: map<Uuid, string>, sources: seq<IoSource>, readvertised: Option<IoNode>)
    : map<Uuid, string>
  {
    map s | s in routes &&
            !exists p <- sources ::
              p.objectId == s &&
              (readvertised.None? || forall q <- readvertised.value.ioSources :: q.objectId != s)
          :: routes[s]
  }

  /** The nodes and routes left after deregistering the nodes with the given ids. */
  function Deregister(nodes: seq<IoNode>, routes: map<Uuid, string>, ids: seq<Uuid>, readvertised: Option<IoNode>)
    : (seq<IoNode>, map<Uuid, string>)
  {
    if ids == [] then (nodes, routes)
    else
      var (nodes', routes') := Deregister(nodes, routes, ids[..|ids| - 1], readvertised);
      var i := NodeIndex(nodes', ids[|ids| - 1]);
      if i == -1 then (nodes', routes')
      else (RemoveAt(nodes', i), DropRoutes(routes', nodes'[i].ioSources, readvertised))
  }

  lemma DeregisterNone(nodes: seq<IoNode>, routes: map<Uuid, string>, readvertised: Option<IoNode>)
    ensures Deregister(nodes, routes, [], readvertised) == (nodes, routes)
  {
  }

  lemma DeregisterNext(nodes: seq<IoNode>, routes: map<Uuid, string>, ids: seq<Uuid>, i: nat,
          readvertised: Option<IoNode>)
    requires i < |ids|
    ensures var (nodes', routes') := Deregister(nodes, routes, ids[..i], readvertised);
            var at := NodeIndex(nodes', ids[i]);
            Deregister(nodes, routes, ids[..i + 1], readvertised) ==
            if at == -1 then (nodes', routes')
            else (RemoveAt(nodes', at), DropRoutes(routes', nodes'[at].ioSources, readvertised))
  {
    assert ids[..i + 1][..i] == ids[..i];
  }

  /** The node carries no IO points, which is how a node is deadvertised by advertising it. */
  predicate IsEmptyNode(node: IoNode) {
    node.ioSources == [] && node.ioActors == []
  }

  /** What a router can be asked to do. */
  datatype RouterOp =
    | NodeAdvertised(node: IoNode)
    | NodesDeadvertised(ids: seq<Uuid>)
    | RulesDefined(rules: seq<IoRule>)
    | ContextChanged(context: IoContext)
    | Stopped

  /** Deadvertising: rules are reevaluated iff a managed node was removed. */
  ghost predicate Deadvertises(r: RouterState, ids: seq<Uuid>, r': RouterState, events: seq<AssociateEvent>,
                               createIoRoute: Uuid -> string)
    requires DistinctPairs(r.associations)
  {
    var (nodes, routes) := Deregister(r.nodes, r.routes, ids, None);
    if |nodes| < |r.nodes| then
      Evaluates(r.(nodes := nodes, routes := routes), r', events, createIoRoute)
    else
      r' == r && events == []
  }

  /** The operation `op` leads from `r` to `r'` and publishes `events`. */
  ghost predicate Performs(r: RouterState, op: RouterOp, r': RouterState, events: seq<AssociateEvent>,
                           createIoRoute: Uuid -> string)
    requires DistinctPairs(r.associations)
  {
    match op
    case NodeAdvertised(node) =>
      if IsEmptyNode(node) then
        Deadvertises(r, [node.objectId], r', events, createIoRoute)
      else
        var (nodes, routes) := Deregister(r.nodes, r.routes, [node.objectId], Some(node));
        Evaluates(r.(nodes := nodes + [node], routes := routes), r', events, createIoRoute)
    case NodesDeadvertised(ids) =>
      Deadvertises(r, ids, r', events, createIoRoute)
    case RulesDefined(rules) =>
      Evaluates(r.(rules := RuleTable(rules)), r', events, createIoRoute)
    case ContextChanged(context) =>
      Evaluates(r.(context := context), r', events, createIoRoute)
    case Stopped =>
      && r' == r.(nodes := [], routes := map[], associations := [])
      && |events| == |r.associations|
      && forall i | 0 <= i < |events| ::
           events[i] == AssociateEvent(r.associations[i].source.objectId, r.associations[i].actor.objectId, None, None)
  }

  // ---------------------------------------------------------------- managed nodes and routes

  ghost predicate DistinctNodes(nodes: seq<IoNode>) {
    forall i, j | 0 <= i < j < |nodes| :: nodes[i].objectId != nodes[j].objectId
  }

  ghost predicate HasSource(node: IoNode, s: Uuid) {
    exists p <- node.ioSources :: p.objectId == s
  }

  /** The readvertised node keeps the route of source `s`. */
  ghost predicate KeepsSource(readvertised: Option<IoNode>, s: Uuid) {
    readvertised.Some? && HasSource(readvertised.value, s)
  }

  lemma RemoveNode(nodes: seq<IoNode>, i: nat)
    requires DistinctNodes(nodes) && i < |nodes|
    ensures DistinctNodes(RemoveAt(nodes, i))
    ensures forall n :: n in RemoveAt(nodes, i) <==> n in nodes && n.objectId != nodes[i].objectId
  {
    hide RemoveAt;
    var r := RemoveAt(nodes, i);
    RemoveAtElements(nodes, i);
    forall n | n in nodes && n.objectId != nodes[i].objectId
      ensures n in r
    {
      var k :| 0 <= k < |nodes| && nodes[k] == n;
      assert r[if k < i then k else k - 1] == n;
    }
  }

  lemma DropRoutesMeans(routes: map<Uuid, string>, node: IoNode, readvertised: Option<IoNode>)
    ensures var after := DropRoutes(routes, node.ioSources, readvertised);
            && (forall s :: s in after <==> s in routes && (HasSource(node, s) ==> KeepsSource(readvertised, s)))
            && (forall s <- after :: after[s] == routes[s])
  {
    var after := DropRoutes(routes, node.ioSources, readvertised);
    forall s | s in routes
      ensures s in after <==> (HasSource(node, s) ==> KeepsSource(readvertised, s))
    {
    }
  }

  /**
   * Deregistering removes exactly the listed nodes, and exactly the routes of their sources,
   * except for those of a readvertised node.
   */
  lemma {:induction false} DeregisterMeans(nodes: seq<IoNode>, routes: map<Uuid, string>, ids: seq<Uuid>,
                                           readvertised: Option<IoNode>)
    requires DistinctNodes(nodes)
    ensures var (nodes', routes') := Deregister(nodes, routes, ids, readvertised);
            && DistinctNodes(nodes') && |nodes'| <= |nodes| && (|nodes'| == |nodes| ==> nodes' == nodes)
            && (forall n :: n in nodes' <==> n in nodes && n.objectId !in ids)
            && (forall s :: s in routes' <==>
                  s in routes && ((exists n <- nodes :: n.objectId in ids && HasSource(n, s)) ==>
                      KeepsSource(readvertised, s)))
            && (forall s <- routes' :: routes'[s] == routes[s])
  {
    if ids != [] {
      hide DropRoutes, RemoveAt, HasSource, KeepsSource, DistinctNodes;
      var before, id := ids[..|ids| - 1], ids[|ids| - 1];
      DeregisterMeans(nodes, routes, before, readvertised);
      var (nodes1, routes1) := Deregister(nodes, routes, before, readvertised);
      assert forall i :: i in ids <==> i in before || i == id;
      var i := NodeIndex(nodes1, id);
      if i != -1 {
        RemoveNode(nodes1, i);
        DropRoutesMeans(routes1, nodes1[i], readvertised);
        assert nodes1[i] in nodes;
        SameNode(nodes, nodes1[i]);
      }
    }
  }

  lemma SameNode(nodes: seq<IoNode>, node: IoNode)
    requires DistinctNodes(nodes) && node in nodes
    ensures forall n <- nodes :: n.objectId == node.objectId ==> n == node
  {
  }

  /**
   * What each operation does to the managed nodes, of which there is at most one per id, and to
   * rules and context: all else an evaluation depends on.
   */
  lemma ManagedNodesFollow(r: RouterState, op: RouterOp, r': RouterState, events: seq<AssociateEvent>,
                           createIoRoute: Uuid -> string)
    requires DistinctPairs(r.associations) && DistinctNodes(r.nodes) && Performs(r, op, r', events, createIoRoute)
    ensures DistinctNodes(r'.nodes)
    ensures forall n :: n in r'.nodes <==>
              match op
              case NodeAdvertised(node) =>
                || (n == node && (node.ioSources != [] || node.ioActors != []))
                || (n in r.nodes && n.objectId != node.objectId)
              case NodesDeadvertised(ids) => n in r.nodes && n.objectId !in ids
              case Stopped => false
              case _ => n in r.nodes
    ensures r'.rules == if op.RulesDefined? then RuleTable(op.rules) else r.rules
    ensures r'.context == if op.ContextChanged? then op.context else r.context
  {
    hide Deregister, DistinctPairs, Resolved, Announces, RoutesFollow, AsMap, RuleTable;
    match op
    case NodeAdvertised(node) =>
      var readvertised := if IsEmptyNode(node) then None else Some(node);
      DeregisterMeans(r.nodes, r.routes, [node.objectId], readvertised);
    case NodesDeadvertised(ids) =>
      DeregisterMeans(r.nodes, r.routes, ids, None);
    case _ =>
  }

  /** A source that a node keeps when it is readvertised keeps its route. */
  lemma ReadvertisedSourceKeepsRoute(r: RouterState, node: IoNode, r': RouterState, events: seq<AssociateEvent>,
                                     createIoRoute: Uuid -> string, s: Uuid)
    requires DistinctPairs(r.associations) && DistinctNodes(r.nodes) && !IsEmptyNode(node)
    requires Performs(r, NodeAdvertised(node), r', events, createIoRoute)
    requires s in r.routes && HasSource(node, s)
    ensures s in r'.routes && r'.routes[s] == r.routes[s]
  {
    hide Deregister, DistinctPairs, Resolved, Announces, AsMap, HasSource;
    DeregisterMeans(r.nodes, r.routes, [node.objectId], Some(node));
  }

  /** After every operation the associations are what rules, nodes and context ask for, if they were before. */
  lemma PerformsKeepsResolved(r: RouterState, op: RouterOp, r': RouterState, events: seq<AssociateEvent>,
                              createIoRoute: Uuid -> string)
    requires DistinctPairs(r.associations) && Performs(r, op, r', events, createIoRoute)
    requires Resolved(r.Config(), AsMap(r.associations))
    ensures DistinctPairs(r'.associations) && Resolved(r'.Config(), AsMap(r'.associations))
    ensures forall x <- r'.associations ::
              x.source.valueType == x.actor.valueType && x.source.useRawIoValues == x.actor.useRawIoValues
  {
    hide Resolved, Deregister, Announces, RoutesFollow, RuleTable;
    if op.Stopped? {
      NothingResolved(r'.Config());
      assert AsMap([]) == map[];
    }
    AssociationsFit(r'.Config(), r'.associations);
  }

  /** Associated points agree in value type and in the use of raw values. */
  lemma AssociationsFit(cfg: Config, associations: seq<Association>)
    requires DistinctPairs(associations) && Resolved(cfg, AsMap(associations))
    ensures forall x <- associations ::
              x.source.valueType == x.actor.valueType && x.source.useRawIoValues == x.actor.useRawIoValues
  {
    hide Resolved;
    AssociatedPointsFit(cfg, AsMap(associations));
    forall x | x in associations
      ensures x.source.valueType == x.actor.valueType && x.source.useRawIoValues == x.actor.useRawIoValues
    {
      var i :| 0 <= i < |associations| && associations[i] == x;
      assert AsMap(associations)[associations[i].Pair()] == x;
    }
  }

  lemma NothingResolved(cfg: Config)
    requires cfg.nodes == []
    ensures Resolved(cfg, map[])
  {
    assert SourceTable([]) == map[];
  }

  // ---------------------------------------------------------------- the router object

  class RuleBasedIoRouter {
    var context: IoContext
    var managedIoNodes: seq<IoNode>  // a Map by node id: a node is always deleted before it is set again
    var sourceRoutes: map<Uuid, string>
    var rules: map<string, seq<Condition>>
    var currentAssociations: seq<Association>
    var published: seq<AssociateEvent>  // the Associate events published so far
    const createIoRoute: Uuid -> string  // supplied by the communication binding

    ghost function State(): RouterState
      reads this
    {
      RouterState(context, managedIoNodes, sourceRoutes, rules, currentAssociations)
    }

    ghost predicate Valid()
      reads this
    {
      DistinctPairs(currentAssociations)
    }

    constructor (context: IoContext, createIoRoute: Uuid -> string)
      ensures Valid() && State() == RouterState(context, [], map[], map[], [])
      ensures published == [] && this.createIoRoute == createIoRoute
    {
      this.context, this.createIoRoute := context, createIoRoute;
      managedIoNodes, sourceRoutes, rules := [], map[], map[];
      currentAssociations, published := [], [];
    }

    // ------------------------------------------------------------ operations

    method IoNodeAdvertised(node: IoNode) returns (ghost events: seq<AssociateEvent>)
      requires Valid()
      modifies this
      ensures Valid() && published == old(published) + events
      ensures Performs(old(State()), NodeAdvertised(node), State(), events, createIoRoute)
    {
      hide Evaluates, Deregister;
      var isDeadvertise := |node.ioSources| == 0 && |node.ioActors| == 0;
      events := IoNodesDeadvertised'([node.objectId], if isDeadvertise then None else Some(node));
      if isDeadvertise {
        return;
      }
      managedIoNodes := managedIoNodes + [node];
      events := EvaluateRules();
    }

    method IoNodesDeadvertised(ids: seq<Uuid>) returns (ghost events: seq<AssociateEvent>)
      requires Valid()
      modifies this
      ensures Valid() && published == old(published) + events
      ensures Performs(old(State()), NodesDeadvertised(ids), State(), events, createIoRoute)
    {
      events := IoNodesDeadvertised'(ids, None);
    }

    method IoNodesDeadvertised'(ids: seq<Uuid>, readvertised: Option<IoNode>)
      returns (ghost events: seq<AssociateEvent>)
      requires Valid()
      modifies this
      ensures Valid() && published == old(published) + events
      ensures readvertised.None? ==> Deadvertises(old(State()), ids, State(), events, createIoRoute)
      ensures readvertised.Some? ==>
                && events == []
                && State() == old(State()).(
                     nodes := Deregister(old(managedIoNodes), old(sourceRoutes), ids, readvertised).0,
                     routes := Deregister(old(managedIoNodes), old(sourceRoutes), ids, readvertised).1)
    {
      hide Evaluates, Deregister;
      var deregistered := DeregisterNodes(ids, readvertised);
      events := [];
      if deregistered > 0 && readvertised.None? {
        events := EvaluateRules();
      }
    }

    /** The loop of `IoNodesDeadvertised'`; `count` nodes were deregistered. */
    method DeregisterNodes(ids: seq<Uuid>, readvertised: Option<IoNode>) returns (count: nat)
      modifies this`managedIoNodes, this`sourceRoutes
      ensures (managedIoNodes, sourceRoutes) == Deregister(old(managedIoNodes), old(sourceRoutes), ids, readvertised)
      ensures count == |old(managedIoNodes)| - |managedIoNodes|
      ensures count == 0 ==> managedIoNodes == old(managedIoNodes) && sourceRoutes == old(sourceRoutes)
    {
      hide DropRoutes, Deregister, RemoveAt;
      DeregisterNone(managedIoNodes, sourceRoutes, readvertised);
      count := 0;
      for i := 0 to |ids|
        invariant (managedIoNodes, sourceRoutes) ==
                  Deregister(old(managedIoNodes), old(sourceRoutes), ids[..i], readvertised)
        invariant count == |old(managedIoNodes)| - |managedIoNodes|
        invariant count == 0 ==> managedIoNodes == old(managedIoNodes) && sourceRoutes == old(sourceRoutes)
      {
        DeregisterNext(old(managedIoNodes), old(sourceRoutes), ids, i, readvertised);
        var at := NodeIndex(managedIoNodes, ids[i]);
        if at != -1 {
          var node := managedIoNodes[at];
          managedIoNodes := RemoveAt(managedIoNodes, at);
          DropSourceRoutes(node.ioSources, readvertised);
          count := count + 1;
        }
      }
      assert ids[..|ids|] == ids;
    }

    method DropSourceRoutes(sources: seq<IoSource>, readvertised: Option<IoNode>)
      modifies this`sourceRoutes
      ensures sourceRoutes == DropRoutes(old(sourceRoutes), sources, readvertised)
    {
      for i := 0 to |sources|
        invariant sourceRoutes == DropRoutes(old(sourceRoutes), sources[..i], readvertised)
      {
        var id := sources[i].objectId;
        if readvertised.None? || !exists q <- readvertised.value.ioSources :: q.objectId == id {
          sourceRoutes := sourceRoutes - {id};
        }
        assert sources[..i + 1] == sources[..i] + [sources[i]];
      }
      assert sources[..|sources|] == sources;
    }

    method DefineRules(definitions: seq<IoRule>) returns (ghost events: seq<AssociateEvent>)
      requires Valid()
      modifies this
      ensures Valid() && published == old(published) + events
      ensures Performs(old(State()), RulesDefined(definitions), State(), events, createIoRoute)
    {
      rules := map[];
      for i := 0 to |definitions|
        invariant State() == old(State()).(rules := RuleTable(definitions[..i]))
        invariant published == old(published)
      {
        assert definitions[..i + 1][..i] == definitions[..i];
        var rule := definitions[i];
        if rule.condition.Some? {
          var vRules := if rule.valueType in rules then rules[rule.valueType] else [];
          rules := rules[rule.valueType := vRules + [rule.condition.value]];
        }
      }
      assert definitions[..|definitions|] == definitions;
      events := EvaluateRules();
    }

    method OnIoContextChanged(newContext: IoContext) returns (ghost events: seq<AssociateEvent>)
      requires Valid()
      modifies this
      ensures Valid() && published == old(published) + events
      ensures Performs(old(State()), ContextChanged(newContext), State(), events, createIoRoute)
    {
      context := newContext;
      events := EvaluateRules();
    }

    method Stop() returns (ghost events: seq<AssociateEvent>)
      requires Valid()
      modifies this
      ensures Valid() && published == old(published) + events
      ensures Performs(old(State()), Stopped, State(), events, createIoRoute)
    {
      events := [];
      for i := 0 to |currentAssociations|
        invariant State() == old(State())
        invariant published == old(published) + events && |events| == i
        invariant forall j | 0 <= j < i ::
                    events[j] == AssociateEvent(currentAssociations[j].source.objectId,
                                                currentAssociations[j].actor.objectId, None, None)
      {
        Disassociate(currentAssociations[i].source, currentAssociations[i].actor);
        events := events + [published[|published| - 1]];
      }
      currentAssociations := [];
      managedIoNodes := [];
      sourceRoutes := map[];
    }

    // ------------------------------------------------------------ publishing

    method Associate(source: IoSource, actor: IoActor, rate: Option<real>)
      modifies this`sourceRoutes, this`published
      ensures var route := RouteFor(old(sourceRoutes), source, createIoRoute);
              && sourceRoutes == old(sourceRoutes)[source.objectId := route]
              && published == old(published) + [AssociateEvent(source.objectId, actor.objectId, Some(route), rate)]
    {
      if source.objectId !in sourceRoutes {
        sourceRoutes := sourceRoutes[source.objectId := FreshRoute(source, createIoRoute)];
      }
      var route := sourceRoutes[source.objectId];
      published := published + [AssociateEvent(source.objectId, actor.objectId, Some(route), rate)];
    }

    method Disassociate(source: IoSource, actor: IoActor)
      modifies this`published
      ensures published == old(published) + [AssociateEvent(source.objectId, actor.objectId, None, None)]
    {
      published := published + [AssociateEvent(source.objectId, actor.objectId, None, None)];
    }

    // ------------------------------------------------------------ rule evaluation

    method EvaluateRules() returns (ghost events: seq<AssociateEvent>)
      requires Valid()
      modifies this`sourceRoutes, this`published, this`currentAssociations
      ensures Valid() && published == old(published) + events
      ensures Evaluates(old(State()), State(), events, createIoRoute)
    {
      var candidates := GetCompatibleAssociations();
      var matched := Match(candidates);
      var resolved := Resolve(matched);
      hide Flat, WellKeyed, Resolved, Fires, CandidateFor, SharesMaxRate, OneSourceObject, IsMatch, Announces,
          RoutesFollow, AsMap;
      OutcomeIsResolved(State().Config(), candidates, matched, resolved);
      events := Act(resolved);
    }

    method GetCompatibleAssociations() returns (candidates: seq<Candidate>)
      ensures forall c <- candidates :: CandidateFor(State().Config(), c.Pair()) == Some(c)
      ensures forall p: Pair :: CandidateFor(State().Config(), p).Some? ==>
          CandidateFor(State().Config(), p).value in candidates
      ensures forall c <- candidates ::
          c.source.valueType == c.actor.valueType && c.source.useRawIoValues == c.actor.useRawIoValues
    {
      var sources, actors := CollectPoints();
      SourceTableKeyed(managedIoNodes);
      ActorTableKeyed(managedIoNodes);

      hide CandidateFor;
      ghost var cfg := State().Config();
      candidates := [];
      var todo := sources.Keys;
      while todo != {}
        invariant todo <= sources.Keys
        invariant forall c <- candidates :: CandidateFor(cfg, c.Pair()) == Some(c)
        invariant forall p: Pair :: p.0 in sources.Keys - todo && CandidateFor(cfg, p).Some? ==>
            CandidateFor(cfg, p).value in candidates
      {
        var s :| s in todo;
        todo := todo - {s};
        var more := CandidatesOf(s, sources[s].0, sources[s].1, actors);
        candidates := candidates + more;
      }
      CandidateInTables(cfg);
      CandidatesFit(cfg, candidates);
    }

    /** The compatible pairs of one source. */
    method CandidatesOf(s: Uuid, source: IoSource, sourceNode: IoNode, actors: map<Uuid, (IoActor, IoNode)>)
      returns (candidates: seq<Candidate>)
      requires s in SourceTable(managedIoNodes) && SourceTable(managedIoNodes)[s] == (source, sourceNode)
      requires actors == ActorTable(managedIoNodes)
      ensures forall c <- candidates :: CandidateFor(State().Config(), c.Pair()) == Some(c)
      ensures forall p: Pair :: p.0 == s && CandidateFor(State().Config(), p).Some? ==>
          CandidateFor(State().Config(), p).value in candidates
    {
      hide SourceTable, ActorTable;
      SourceTableKeyed(managedIoNodes);
      ActorTableKeyed(managedIoNodes);
      ghost var cfg := State().Config();
      candidates := [];
      var todo := actors.Keys;
      while todo != {}
        invariant todo <= actors.Keys
        invariant forall c <- candidates :: CandidateFor(cfg, c.Pair()) == Some(c)
        invariant forall p: Pair :: p.0 == s && p.1 in actors.Keys - todo && CandidateFor(cfg, p).Some? ==>
            CandidateFor(cfg, p).value in candidates
      {
        var a :| a in todo;
        todo := todo - {a};
        if Compatible(source, actors[a].0) {
          var c := Candidate(source, sourceNode, actors[a].0, actors[a].1);
          assert c.Pair() == (s, a);
          candidates := candidates + [c];
        }
      }
    }

    /** The points of all managed nodes by id, with their nodes. */
    method CollectPoints() returns (sources: map<Uuid, (IoSource, IoNode)>, actors: map<Uuid, (IoActor, IoNode)>)
      ensures sources == SourceTable(managedIoNodes) && actors == ActorTable(managedIoNodes)
    {
      sources, actors := map[], map[];
      for i := 0 to |managedIoNodes|
        invariant sources == SourceTable(managedIoNodes[..i]) && actors == ActorTable(managedIoNodes[..i])
      {
        var node := managedIoNodes[i];
        for j := 0 to |node.ioSources|
          invariant sources == AddSources(SourceTable(managedIoNodes[..i]), node, node.ioSources[..j])
        {
          assert node.ioSources[..j + 1][..j] == node.ioSources[..j];
          sources := sources[node.ioSources[j].objectId := (node.ioSources[j], node)];
        }
        for j := 0 to |node.ioActors|
          invariant actors == AddActors(ActorTable(managedIoNodes[..i]), node, node.ioActors[..j])
        {
          assert node.ioActors[..j + 1][..j] == node.ioActors[..j];
          actors := actors[node.ioActors[j].objectId := (node.ioActors[j], node)];
        }
        assert node.ioSources[..|node.ioSources|] == node.ioSources;
        assert node.ioActors[..|node.ioActors|] == node.ioActors;
        assert managedIoNodes[..i + 1][..i] == managedIoNodes[..i];
      }
      assert managedIoNodes[..|managedIoNodes|] == managedIoNodes;
    }

    method Match(candidates: seq<Candidate>) returns (m: AssociationMap)
      ensures WellKeyed(m)
      ensures forall p <- Flat(m) :: IsMatch(State().Config(), candidates, p, Flat(m)[p])
      ensures forall c <- candidates :: Fires(State().Config(), c) ==> c.Pair() in Flat(m)
    {
      hide Fires, Flat, WellKeyed;
      FlatEmpty();
      ghost var cfg := State().Config();
      m := map[];
      for i := 0 to |candidates|
        invariant WellKeyed(m)
        invariant forall p <- Flat(m) :: IsMatch(cfg, candidates, p, Flat(m)[p])
        invariant forall k | 0 <= k < i :: Fires(cfg, candidates[k]) ==> candidates[k].Pair() in Flat(m)
      {
        var c := candidates[i];
        var isMatch := AnyRuleFires(c);
        if isMatch {
          var entry := Association(c.source, c.actor, Cumulate(c.source.updateRate, c.actor.updateRate));
          FlatPut(m, entry);
          WellKeyedPut(m, entry);
          m := Put(m, entry);
          assert c in candidates && IsMatch(cfg, candidates, c.Pair(), entry);
        }
      }
    }

    /** Tries the applicable rules in their order up to the first match. */
    method AnyRuleFires(c: Candidate) returns (isMatch: bool)
      ensures isMatch == Fires(State().Config(), c)
    {
      var conditions := if c.source.valueType in rules then rules[c.source.valueType]
                        else if "" in rules then rules[""] else [];
      for i := 0 to |conditions|
        invariant forall k | 0 <= k < i :: !conditions[k](c.source, c.sourceNode, c.actor, c.actorNode, context)
      {
        if conditions[i](c.source, c.sourceNode, c.actor, c.actorNode, context) {
          return true;
        }
      }
      return false;
    }

    method Resolve(matched: AssociationMap) returns (m: AssociationMap)
      ensures m.Keys == matched.Keys
      ensures forall s <- m :: SharesMaxRate(matched[s], m[s])
    {
      hide SharesMaxRate;
      m := matched;
      var todo := m.Keys;
      while todo != {}
        invariant todo <= m.Keys == matched.Keys
        invariant forall s <- todo :: m[s] == matched[s]
        invariant forall s <- m.Keys - todo :: SharesMaxRate(matched[s], m[s])
      {
        var s :| s in todo;
        todo := todo - {s};
        var actors := ResolveSource(m[s]);
        m := m[s := actors];
      }
    }

    method ResolveSource(actors: map<Uuid, Association>) returns (resolved: map<Uuid, Association>)
      ensures SharesMaxRate(actors, resolved)
    {
      var cumulatedRate: Option<real> := None;
      var todo := actors.Keys;
      while todo != {}
        invariant todo <= actors.Keys
        invariant IsMaxRate(cumulatedRate, set a | a in actors.Keys - todo :: actors[a].rate)
      {
        var a :| a in todo;
        ghost var seen := set b | b in actors.Keys - todo :: actors[b].rate;
        todo := todo - {a};
        assert (set b | b in actors.Keys - todo :: actors[b].rate) == seen + {actors[a].rate};
        cumulatedRate := Cumulate(actors[a].rate, cumulatedRate);
      }
      assert actors.Keys - todo == actors.Keys;
      assert (set b | b in actors.Keys - todo :: actors[b].rate) == (set b | b in actors :: actors[b].rate);
      resolved := actors;
      todo := actors.Keys;
      while todo != {}
        invariant todo <= actors.Keys == resolved.Keys
        invariant forall a <- actors.Keys - todo :: resolved[a] == actors[a].(rate := cumulatedRate)
        invariant forall a <- todo :: resolved[a] == actors[a]
      {
        var a :| a in todo;
        todo := todo - {a};
        resolved := resolved[a := resolved[a].(rate := cumulatedRate)];
      }
    }

    method Act(resolved: AssociationMap) returns (ghost events: seq<AssociateEvent>)
      requires Valid() && WellKeyed(resolved) && OneSourceObject(Flat(resolved))
      modifies this`sourceRoutes, this`published, this`currentAssociations
      ensures Valid() && AsMap(currentAssociations) == Flat(resolved)
      ensures published == old(published) + events
      ensures Announces(events, AsMap(old(currentAssociations)), Flat(resolved), old(sourceRoutes), createIoRoute,
                        AsMap(old(currentAssociations)).Keys + Flat(resolved).Keys)
      ensures RoutesFollow(old(sourceRoutes), sourceRoutes, events)
    {
      hide Flat, AsMap, ChangeFor, Announces, RoutesFollow, WellKeyed, OneSourceObject, DistinctPairs;
      ghost var before, after := AsMap(currentAssociations), Flat(resolved);
      FlatPairs(resolved);
      var remaining, kept;
      events, remaining, kept := ReviewCurrent(resolved);
      var newAssociations;
      newAssociations, events := AddRemaining(remaining, kept, events, before, after, old(sourceRoutes));
      currentAssociations := newAssociations;
      assert after - (after.Keys - (before.Keys + after.Keys)) == after;
    }

    /** Goes through the current associations: dissolves, readjusts or keeps each of them. */
    method ReviewCurrent(resolved: AssociationMap)
      returns (ghost events: seq<AssociateEvent>, remaining: AssociationMap, kept: seq<Association>)
      requires Valid() && WellKeyed(resolved) && OneSourceObject(Flat(resolved))
      modifies this`sourceRoutes, this`published
      ensures var before, after := AsMap(currentAssociations), Flat(resolved);
              && Flat(remaining) == after - before.Keys
              && Announced(kept, events, before, after, old(sourceRoutes), before.Keys)
      ensures published == old(published) + events
    {
      hide Flat, AsMap, ChangeFor, Announces, RoutesFollow, WellKeyed, OneSourceObject, DistinctPairs;
      ghost var before, after := AsMap(currentAssociations), Flat(resolved);
      ghost var on: set<Pair> := {};
      FlatPairs(resolved);
      NothingAnnounced(before, after, sourceRoutes, createIoRoute);
      remaining, kept, events := resolved, [], [];
      assert Announced(kept, events, before, after, sourceRoutes, on);
      assert after == after - on;
      hide Announced;
      for i := 0 to |currentAssociations|
        invariant forall p :: p in on <==> exists j | 0 <= j < i :: currentAssociations[j].Pair() == p
        invariant WellKeyed(remaining) && Flat(remaining) == after - on
        invariant Announced(kept, events, before, after, old(sourceRoutes), on)
        invariant published == old(published) + events
      {
        CurrentPair(currentAssociations, i);
        remaining, kept, events := ReviewOne(currentAssociations[i], remaining, kept, events,
                                             before, after, old(sourceRoutes), on);
        on := on + {currentAssociations[i].Pair()};
      }
      AllPairs(currentAssociations, on);
    }

    method ReviewOne(current: Association, remaining0: AssociationMap, kept0: seq<Association>,
                     ghost events0: seq<AssociateEvent>, ghost before: map<Pair, Association>,
                     ghost after: map<Pair, Association>, ghost routes0: map<Uuid, string>, ghost on: set<Pair>)
      returns (remaining: AssociationMap, kept: seq<Association>, ghost events: seq<AssociateEvent>)
      requires OneSourceObject(after) && (forall p <- after :: after[p].Pair() == p)
      requires WellKeyed(remaining0) && Flat(remaining0) == after - on
      requires Announced(kept0, events0, before, after, routes0, on)
      requires current.Pair() in before && before[current.Pair()] == current && current.Pair() !in on
      modifies this`sourceRoutes, this`published
      ensures WellKeyed(remaining) && Flat(remaining) == after - (on + {current.Pair()})
      ensures Announced(kept, events, before, after, routes0, on + {current.Pair()})
      ensures events0 <= events && published == old(published) + events[|events0|..]
    {
      hide Flat, AsMap, ChangeFor, Announces, RoutesFollow, WellKeyed, OneSourceObject, DistinctPairs;
      var s, a := current.source.objectId, current.actor.objectId;
      ghost var p := (s, a);
      FlatAt(remaining0, p);
      remaining, kept, events := remaining0, kept0, events0;
      if s !in remaining || a !in remaining[s] {
        DisassociateStep(events0, before, after, routes0, sourceRoutes, createIoRoute, on, p);
        Disassociate(current.source, current.actor);
        events := events0 + [AssociateEvent(s, a, None, None)];
        assert after - on == after - (on + {p}) && after - (after.Keys - on) == after - (after.Keys - (on + {p}));
      } else {
        var info := remaining[s][a];
        if info.rate != current.rate {
          AssociateStep(events0, before, after, routes0, sourceRoutes, createIoRoute, on, p);
          ghost var route := RouteFor(sourceRoutes, info.source, createIoRoute);
          events := events0 + [AssociateEvent(s, a, Some(route), info.rate)];
          Associate(info.source, info.actor, info.rate);
        } else {
          KeepStep(events0, before, after, routes0, createIoRoute, on, p);
        }
        AsMapAppend(kept0, info);
        kept := kept0 + [info];
        FlatRemove(remaining0, p);
        remaining := Remove(remaining0, s, a);
        assert after - on - {p} == after - (on + {p});
        assert after - (after.Keys - (on + {p})) == (after - (after.Keys - on))[p := info];
      }
    }

    /** Adds the remaining resolved pairs as new associations. */
    method AddRemaining(remaining: AssociationMap, known: seq<Association>, ghost events0: seq<AssociateEvent>,
                        ghost before: map<Pair, Association>, ghost after: map<Pair, Association>,
                        ghost routes0: map<Uuid, string>)
      returns (associations: seq<Association>, ghost events: seq<AssociateEvent>)
      requires OneSourceObject(after) && (forall p <- after :: after[p].Pair() == p)
      requires Flat(remaining) == after - before.Keys
      requires Announced(known, events0, before, after, routes0, before.Keys)
      modifies this`sourceRoutes, this`published
      ensures Announced(associations, events, before, after, routes0, before.Keys + after.Keys)
      ensures events0 <= events && published == old(published) + events[|events0|..]
    {
      hide Flat, Announced, OneSourceObject;
      associations, events := known, events0;
      forall p | p in after && p !in before
        ensures p.0 in remaining && p.1 in remaining[p.0]
      {
        FlatAt(remaining, p);
      }
      ghost var on := before.Keys;
      var todo := remaining.Keys;
      while todo != {}
        invariant todo <= remaining.Keys
        invariant before.Keys <= on <= before.Keys + after.Keys
        invariant forall p <- after | p !in before :: p in on <==> p.0 !in todo
        invariant events0 <= events && published == old(published) + events[|events0|..]
        invariant Announced(associations, events, before, after, routes0, on)
      {
        var s :| s in todo;
        ghost var on1;
        forall a | a in remaining[s]
          ensures (s, a) in after && (s, a) !in before && after[(s, a)] == remaining[s][a] && (s, a) !in on
        {
          FlatAt(remaining, (s, a));
        }
        associations, events, on1 := AddActorsOf(s, remaining[s], associations, events, before, after, routes0, on);
        todo := todo - {s};
        on := on1;
      }
      assert on == before.Keys + after.Keys;
    }

    /** Adds the remaining resolved pairs of one source. */
    method AddActorsOf(s: Uuid, actors: map<Uuid, Association>, known: seq<Association>,
                     ghost events0: seq<AssociateEvent>, ghost before: map<Pair, Association>,
                     ghost after: map<Pair, Association>, ghost routes0: map<Uuid, string>, ghost on0: set<Pair>)
      returns (associations: seq<Association>, ghost events: seq<AssociateEvent>, ghost on: set<Pair>)
      requires OneSourceObject(after) && (forall p <- after :: after[p].Pair() == p)
      requires forall a <- actors ::
                 (s, a) in after && (s, a) !in before && after[(s, a)] == actors[a] && (s, a) !in on0
      requires Announced(known, events0, before, after, routes0, on0)
      modifies this`sourceRoutes, this`published
      ensures Announced(associations, events, before, after, routes0, on)
      ensures forall p :: p in on <==> p in on0 || (p.0 == s && p.1 in actors)
      ensures events0 <= events && published == old(published) + events[|events0|..]
    {
      hide Announced, OneSourceObject;
      associations, events, on := known, events0, on0;
      var todo := actors.Keys;
      while todo != {}
        invariant todo <= actors.Keys
        invariant forall p :: p in on <==> p in on0 || (p.0 == s && p.1 in actors.Keys - todo)
        invariant events0 <= events && published == old(published) + events[|events0|..]
        invariant Announced(associations, events, before, after, routes0, on)
      {
        var a :| a in todo;
        associations, events := AddOne(actors[a], associations, events, before, after, routes0, on);
        on := on + {(s, a)};
        todo := todo - {a};
      }
    }

    method AddOne(info: Association, known: seq<Association>, ghost events0: seq<AssociateEvent>,
                  ghost before: map<Pair, Association>, ghost after: map<Pair, Association>,
                  ghost routes0: map<Uuid, string>, ghost on: set<Pair>)
      returns (associations: seq<Association>, ghost events: seq<AssociateEvent>)
      requires OneSourceObject(after) && Announced(known, events0, before, after, routes0, on)
      requires info.Pair() in after && info.Pair() !in before && info.Pair() !in on && after[info.Pair()] == info
      modifies this`sourceRoutes, this`published
      ensures Announced(associations, events, before, after, routes0, on + {info.Pair()})
      ensures events0 <= events && |events| == |events0| + 1 && published == old(published) + events[|events0|..]
    {
      hide AsMap, ChangeFor, Announces, RoutesFollow, OneSourceObject, DistinctPairs;
      ghost var p := info.Pair();
      AssociateStep(events0, before, after, routes0, sourceRoutes, createIoRoute, on, p);
      events := events0 + [AssociateEvent(info.source.objectId, info.actor.objectId,
                                          Some(RouteFor(sourceRoutes, info.source, createIoRoute)), info.rate)];
      Associate(info.source, info.actor, info.rate);
      AsMapAppend(known, info);
      associations := known + [info];
      assert after - (after.Keys - (on + {p})) == (after - (after.Keys - on))[p := info];
    }

    /** The pairs `on` are dealt with: their events are published, and their new associations are collected. */
    ghost predicate Announced(associations: seq<Association>, events: seq<AssociateEvent>,
                              before: map<Pair, Association>, after: map<Pair, Association>,
                              routes0: map<Uuid, string>, on: set<Pair>)
      reads this
    {
      && DistinctPairs(associations) && AsMap(associations) == after - (after.Keys - on)
      && Announces(events, before, after, routes0, createIoRoute, on)
      && RoutesFollow(routes0, sourceRoutes, events)
    }
  }

  // ---------------------------------------------------------------- proof steps of a rule evaluation

  lemma CandidatesFit(cfg: Config, candidates: seq<Candidate>)
    requires forall c <- candidates :: CandidateFor(cfg, c.Pair()) == Some(c)
    ensures forall c <- candidates ::
              c.source.valueType == c.actor.valueType && c.source.useRawIoValues == c.actor.useRawIoValues
  {
    hide SourceTable, ActorTable;
  }

  /** Only points of the tables are candidates. */
  lemma CandidateInTables(cfg: Config)
    ensures forall p: Pair :: CandidateFor(cfg, p).Some? ==>
              p.0 in SourceTable(cfg.nodes) && p.1 in ActorTable(cfg.nodes)
  {
    hide SourceTable, ActorTable;
  }

  /** The entry for pair `p` stems from a candidate whose rules fire. */
  ghost predicate IsMatch(cfg: Config, candidates: seq<Candidate>, p: Pair, entry: Association) {
    exists c <- candidates ::
      && c.Pair() == p && Fires(cfg, c)
      && entry == Association(c.source, c.actor, Cumulate(c.source.updateRate, c.actor.updateRate))
  }

  /** `resolved` holds the associations of `actors`, all with the maximum of their defined rates. */
  ghost predicate SharesMaxRate(actors: map<Uuid, Association>, resolved: map<Uuid, Association>) {
    && resolved.Keys == actors.Keys
    && forall a <- resolved ::
         && resolved[a] == actors[a].(rate := resolved[a].rate)
         && IsMaxRate(resolved[a].rate, set b | b in actors :: actors[b].rate)
  }

  lemma SharedRate(matched: AssociationMap, resolved: AssociationMap, p: Pair)
    requires resolved.Keys == matched.Keys && forall s <- resolved :: SharesMaxRate(matched[s], resolved[s])
    ensures p in Flat(resolved) <==> p in Flat(matched)
    ensures p in Flat(resolved) ==>
              && Flat(resolved)[p] == Flat(matched)[p].(rate := Flat(resolved)[p].rate)
              && IsMaxRate(Flat(resolved)[p].rate, set a | a in matched[p.0] :: matched[p.0][a].rate)
  {
    hide Flat;
    FlatAt(matched, p);
    FlatAt(resolved, p);
    if p.0 in matched {
      assert SharesMaxRate(matched[p.0], resolved[p.0]);
    }
  }

  /** The rates around a source, read off the nested map. */
  ghost function RatesOf(actors: map<Uuid, Association>): set<Option<real>> {
    (set a | a in actors :: actors[a].source.updateRate) + (set a | a in actors :: actors[a].actor.updateRate)
  }

  lemma RatesAroundFlat(m: AssociationMap, s: Uuid)
    requires s in m
    ensures RatesAround(Flat(m), s) == RatesOf(m[s])
  {
    hide Flat;
    forall r
      ensures r in RatesAround(Flat(m), s) <==> r in RatesOf(m[s])
    {
      if r in RatesAround(Flat(m), s) {
        var p :| p in Flat(m) && p.0 == s && (r == Flat(m)[p].source.updateRate || r == Flat(m)[p].actor.updateRate);
        FlatAt(m, p);
      }
      if r in RatesOf(m[s]) {
        var a :| a in m[s] && (r == m[s][a].source.updateRate || r == m[s][a].actor.updateRate);
        FlatAt(m, (s, a));
      }
    }
  }

  /** Cumulating per pair and then per source yields the maximum over the source and all its actors. */
  lemma CumulatedMax(rate: Option<real>, actors: map<Uuid, Association>)
    requires forall a <- actors :: actors[a].rate == Cumulate(actors[a].source.updateRate, actors[a].actor.updateRate)
    requires IsMaxRate(rate, set a | a in actors :: actors[a].rate)
    ensures IsMaxRate(rate, RatesOf(actors))
  {
    forall r | r in RatesOf(actors) && r.Some?
      ensures rate.Some? && r.value <= rate.value
    {
      var a :| a in actors && (r == actors[a].source.updateRate || r == actors[a].actor.updateRate);
      assert actors[a].rate in set b | b in actors :: actors[b].rate;
    }
  }

  lemma OutcomeIsResolved(cfg: Config, candidates: seq<Candidate>, matched: AssociationMap, resolved: AssociationMap)
    requires forall c <- candidates :: CandidateFor(cfg, c.Pair()) == Some(c)
    requires forall p: Pair :: CandidateFor(cfg, p).Some? ==> CandidateFor(cfg, p).value in candidates
    requires WellKeyed(matched)
    requires forall p <- Flat(matched) :: IsMatch(cfg, candidates, p, Flat(matched)[p])
    requires forall c <- candidates :: Fires(cfg, c) ==> c.Pair() in Flat(matched)
    requires resolved.Keys == matched.Keys && forall s <- resolved :: SharesMaxRate(matched[s], resolved[s])
    ensures WellKeyed(resolved) && Resolved(cfg, Flat(resolved)) && OneSourceObject(Flat(resolved))
  {
    hide Flat, CandidateFor, Fires, IsMaxRate, RatesAround, Cumulate, Wanted, SourceTable, ActorTable;
    var m := Flat(resolved);
    forall p: Pair
      ensures p in m <==> Wanted(cfg, p)
      ensures p in m ==>
                && p.0 in SourceTable(cfg.nodes) && m[p].source == SourceTable(cfg.nodes)[p.0].0
                && p.1 in ActorTable(cfg.nodes) && m[p].actor == ActorTable(cfg.nodes)[p.1].0
      ensures p in m ==> IsMaxRate(m[p].rate, RatesAround(m, p.0))
    {
      WantedCandidate(cfg, p);
      SharedRate(matched, resolved, p);
      if p in m {
        OutcomeRate(cfg, candidates, matched, resolved, p);
      }
    }
    ResolvedSources(cfg, m);
  }

  lemma ResolvedSources(cfg: Config, m: map<Pair, Association>)
    requires Resolved(cfg, m)
    ensures OneSourceObject(m)
    ensures forall p <- m :: m[p].Pair() == p
  {
    hide Resolved, SourceTable, ActorTable;
    SourceTableKeyed(cfg.nodes);
    ActorTableKeyed(cfg.nodes);
    forall p | p in m
      ensures p.0 in SourceTable(cfg.nodes) && m[p].source == SourceTable(cfg.nodes)[p.0].0
      ensures p.1 in ActorTable(cfg.nodes) && m[p].actor == ActorTable(cfg.nodes)[p.1].0
      ensures m[p].Pair() == p
    {
      ResolvedFromTables(cfg, m, p);
      assert (p.0, p.1) == p;
    }
  }

  lemma OutcomeRate(cfg: Config, candidates: seq<Candidate>, matched: AssociationMap, resolved: AssociationMap, p: Pair)
    requires forall q <- Flat(matched) :: IsMatch(cfg, candidates, q, Flat(matched)[q])
    requires resolved.Keys == matched.Keys && forall s <- resolved :: SharesMaxRate(matched[s], resolved[s])
    requires p in Flat(resolved)
    ensures IsMaxRate(Flat(resolved)[p].rate, RatesAround(Flat(resolved), p.0))
  {
    hide Flat, IsMatch, RatesOf, RatesAround, IsMaxRate, Cumulate;
    FlatAt(resolved, p);
    RatesAroundFlat(resolved, p.0);
    MatchedRates(cfg, candidates, matched, p.0);
    SharedRate(matched, resolved, p);
    CumulatedMax(resolved[p.0][p.1].rate, matched[p.0]);
    SameRatesOf(matched[p.0], resolved[p.0]);
  }

  /** A matched association has the rate cumulated from its source and its actor. */
  lemma MatchedRates(cfg: Config, candidates: seq<Candidate>, matched: AssociationMap, s: Uuid)
    requires forall q <- Flat(matched) :: IsMatch(cfg, candidates, q, Flat(matched)[q])
    requires s in matched
    ensures forall a <- matched[s] ::
              matched[s][a].rate == Cumulate(matched[s][a].source.updateRate, matched[s][a].actor.updateRate)
  {
    hide Flat, Cumulate;
    forall a | a in matched[s]
      ensures matched[s][a].rate == Cumulate(matched[s][a].source.updateRate, matched[s][a].actor.updateRate)
    {
      FlatAt(matched, (s, a));
    }
  }

  lemma SameRatesOf(actors: map<Uuid, Association>, resolved: map<Uuid, Association>)
    requires SharesMaxRate(actors, resolved)
    ensures RatesOf(actors) == RatesOf(resolved)
  {
    hide IsMaxRate;
  }
}

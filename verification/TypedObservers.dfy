/** Advertise and Update events, and their observers by core type or object type. */
module TypedObservers {
  import opened Prelude
  import opened MqttTopic

  // ---------------------------------------------------------------- core types

  const OBJECT_TYPE_PREFIX := "coaty."

  const CORE_TYPES := ["CoatyObject", "User", "Annotation", "Task", "IoContext", "IoNode", "IoSource", "IoActor",
                       "Identity", "Log", "Location", "Snapshot"]

  predicate IsCoreType(coreType: string) {
    coreType in CORE_TYPES
  }

  function GetObjectTypeFor(coreType: string): Option<string> {
    if IsCoreType(coreType) then Some(OBJECT_TYPE_PREFIX + coreType) else None
  }

  /** Looks through the core types for one with the given object type. */
  method GetCoreTypeFor(objectType: string) returns (coreType: Option<string>)
    ensures coreType == CoreTypeFor(objectType)
  {
    for i := 0 to |CORE_TYPES|
      invariant forall k :: 0 <= k < i ==> objectType != OBJECT_TYPE_PREFIX + CORE_TYPES[k]
    {
      if OBJECT_TYPE_PREFIX + CORE_TYPES[i] == objectType {
        assert objectType[|OBJECT_TYPE_PREFIX|..] == CORE_TYPES[i];
        return Some(CORE_TYPES[i]);
      }
    }
    return None;
  }

  /** The core type whose object type this is. */
  function CoreTypeFor(objectType: string): Option<string> {
    var n := |OBJECT_TYPE_PREFIX|;
    if OBJECT_TYPE_PREFIX <= objectType && IsCoreType(objectType[n..]) then Some(objectType[n..]) else None
  }

  lemma CoreTypeForInverts(coreType: string, objectType: string)
    ensures CoreTypeFor(objectType) == Some(coreType) <==> GetObjectTypeFor(coreType) == Some(objectType)
  {
    var n := |OBJECT_TYPE_PREFIX|;
    assert (OBJECT_TYPE_PREFIX + coreType)[n..] == coreType;
    if OBJECT_TYPE_PREFIX <= objectType {
      assert objectType == OBJECT_TYPE_PREFIX + objectType[n..];
    }
  }

  // ---------------------------------------------------------------- publishing and observing

  datatype TypedObject = TypedObject(coreType: string, objectType: string)

  datatype Subject = OfCoreType(coreType: string) | OfObjectType(objectType: string)

  datatype Observer = Observer(id: nat, eventType: EventType, subject: Subject)

  /** What an observer asks for. */
  predicate Wants(o: Observer, obj: TypedObject) {
    match o.subject
    case OfCoreType(coreType) => obj.coreType == coreType
    case OfObjectType(objectType) => obj.objectType == objectType
  }

  /** The event filters under which an object is published. */
  function PublishedFilters(obj: TypedObject): seq<string> {
    [obj.coreType] + if GetObjectTypeFor(obj.coreType) != Some(obj.objectType) then [":" + obj.objectType] else []
  }

  /** The event filter that an observer subscribes to. */
  function ObservedFilter(o: Observer): string {
    match o.subject
    case OfCoreType(coreType) => coreType
    case OfObjectType(objectType) =>
      var coreType := CoreTypeFor(objectType);
      if coreType.Some? then coreType.value else ":" + objectType
  }

  /** The local filter of an observer that subscribes to a core type for its object type. */
  predicate PassesLocally(o: Observer, obj: TypedObject) {
    o.subject.OfObjectType? && CoreTypeFor(o.subject.objectType).Some? ==> obj.objectType == o.subject.objectType
  }

  function Name(t: EventType): string {
    match t
    case Raw => "Raw"
    case Advertise => "Advertise"
    case Deadvertise => "Deadvertise"
    case Channel => "Channel"
    case Associate => "Associate"
    case IoValue => "IoValue"
    case Discover => "Discover"
    case Resolve => "Resolve"
    case Query => "Query"
    case Retrieve => "Retrieve"
    case Update => "Update"
    case Complete => "Complete"
    case Call => "Call"
    case Return => "Return"
  }

  function RequestId(t: EventType, filter: string): string {
    Name(t) + filter
  }

  /** No name of an event type starts another one, so that requests do not share an id. */
  lemma RequestIdInjective(t: EventType, filter: string, t': EventType, filter': string)
    requires RequestId(t, filter) == RequestId(t', filter')
    ensures t == t' && filter == filter'
  {
    var id := RequestId(t, filter);
    assert forall i :: 0 <= i < |Name(t)| ==> id[i] == Name(t)[i];
    assert forall i :: 0 <= i < |Name(t')| ==> id[i] == Name(t')[i];
    if t != t' {
      NamesDiffer(t, t');
    }
    assert filter == id[|Name(t)|..] && filter' == id[|Name(t')|..];
  }

  lemma NamesDiffer(t: EventType, t': EventType)
    requires t != t'
    ensures var n, m := Name(t), Name(t');
      |n| >= 3 && |m| >= 3 && (n[..3] != m[..3] || (|n| > 3 && |m| > 3 && n[3] != m[3]))
  {
    var n, m := Name(t), Name(t');
    if n[..3] == m[..3] {
      assert n[0] == m[0] && n[1] == m[1] && n[2] == m[2] by {
        assert n[0] == n[..3][0] && n[1] == n[..3][1] && n[2] == n[..3][2];
      }
    }
  }

  // ---------------------------------------------------------------- dispatching

  /** The observers of each subscribed request, by request id. */
  type ObservedRequests = map<string, seq<Observer>>

  function Observers(observed: ObservedRequests, id: string): seq<Observer> {
    if id in observed then observed[id] else []
  }

  function Observing(observed: ObservedRequests, o: Observer): ObservedRequests {
    var id := RequestId(o.eventType, ObservedFilter(o));
    observed[id := Observers(observed, id) + [o]]
  }

  function ObservingAll(observers: seq<Observer>): ObservedRequests {
    if observers == [] then map[] else Observing(ObservingAll(observers[..|observers| - 1]), observers[|observers| - 1])
  }

  function Passing(observers: seq<Observer>, obj: TypedObject): seq<Observer> {
    if observers == [] then []
    else Passing(observers[..|observers| - 1], obj)
         + if PassesLocally(observers[|observers| - 1], obj) then [observers[|observers| - 1]] else []
  }

  /** The observers that emit an event with an object that was published under a filter. */
  function Receivers(observed: ObservedRequests, t: EventType, filter: string, obj: TypedObject): seq<Observer> {
    Passing(Observers(observed, RequestId(t, filter)), obj)
  }

  function AllReceivers(observed: ObservedRequests, t: EventType, filters: seq<string>, obj: TypedObject)
    : seq<Observer>
  {
    if filters == [] then []
    else AllReceivers(observed, t, filters[..|filters| - 1], obj)
         + Receivers(observed, t, filters[|filters| - 1], obj)
  }

  class CommunicationManager {
    var observedRequests: ObservedRequests

    constructor ()
      ensures observedRequests == ObservingAll([])
    {
      observedRequests := map[];
    }

    /** Observes by the subject's event filter; subscribes if the request is not observed yet. */
    method ObserveRequest(o: Observer) returns (subscribed: bool)
      modifies this
      ensures observedRequests == Observing(old(observedRequests), o)
      ensures subscribed <==> RequestId(o.eventType, ObservedFilter(o)) !in old(observedRequests)
    {
      var filter := ":";
      match o.subject {
        case OfCoreType(coreType) =>
          filter := coreType;
        case OfObjectType(objectType) =>
          var coreType := GetCoreTypeFor(objectType);
          filter := if coreType.Some? then coreType.value else ":" + objectType;
      }
      var id := RequestId(o.eventType, filter);
      subscribed := id !in observedRequests;
      if subscribed {
        observedRequests := observedRequests[id := []];
      }
      observedRequests := observedRequests[id := observedRequests[id] + [o]];
    }

    /** Dispatches an inbound request event to the observers of its request id. */
    method DispatchEvent(t: EventType, filter: string, obj: TypedObject) returns (receivers: seq<Observer>)
      ensures receivers == Receivers(observedRequests, t, filter, obj)
    {
      receivers := [];
      var id := RequestId(t, filter);
      if id !in observedRequests {
        return;
      }
      var observers := observedRequests[id];
      for i := 0 to |observers|
        invariant receivers == Passing(observers[..i], obj)
      {
        assert observers[..i + 1][..i] == observers[..i];
        if PassesLocally(observers[i], obj) {
          receivers := receivers + [observers[i]];
        }
      }
      assert observers[..|observers|] == observers;
    }
  }

  lemma {:induction false} PassingCount(observers: seq<Observer>, obj: TypedObject, o: Observer)
    ensures multiset(Passing(observers, obj))[o] == if PassesLocally(o, obj) then multiset(observers)[o] else 0
  {
    if observers != [] {
      var n := |observers| - 1;
      PassingCount(observers[..n], obj, o);
      assert observers == observers[..n] + [observers[n]];
    }
  }

  lemma {:induction false} ObserversCount(observers: seq<Observer>, t: EventType, filter: string, o: Observer)
    ensures multiset(Observers(ObservingAll(observers), RequestId(t, filter)))[o] ==
            if o.eventType == t && ObservedFilter(o) == filter then multiset(observers)[o] else 0
  {
    hide Name, RequestId, ObservedFilter;
    if observers != [] {
      var n := |observers| - 1;
      var last := observers[n];
      ObserversCount(observers[..n], t, filter, o);
      assert observers == observers[..n] + [last];
      if RequestId(t, filter) == RequestId(last.eventType, ObservedFilter(last)) {
        RequestIdInjective(t, filter, last.eventType, ObservedFilter(last));
      }
    }
  }

  /** How often an observer receives an object that was published. */
  ghost function Receptions(observers: seq<Observer>, t: EventType, obj: TypedObject, o: Observer): nat {
    multiset(AllReceivers(ObservingAll(observers), t, PublishedFilters(obj), obj))[o]
  }

  lemma ReceiversCount(observers: seq<Observer>, t: EventType, filter: string, obj: TypedObject, o: Observer)
    ensures multiset(Receivers(ObservingAll(observers), t, filter, obj))[o] ==
            if o.eventType == t && PassesLocally(o, obj) && ObservedFilter(o) == filter
            then multiset(observers)[o] else 0
  {
    hide ObservingAll, Passing, RequestId, ObservedFilter, PassesLocally, Observers;
    PassingCount(Observers(ObservingAll(observers), RequestId(t, filter)), obj, o);
    ObserversCount(observers, t, filter, o);
  }

  lemma {:induction false} ReceptionsCount(observers: seq<Observer>, t: EventType, filters: seq<string>,
                                           obj: TypedObject, o: Observer)
    requires Distinct(filters)
    ensures multiset(AllReceivers(ObservingAll(observers), t, filters, obj))[o] ==
            if o.eventType == t && PassesLocally(o, obj) && ObservedFilter(o) in filters
            then multiset(observers)[o] else 0
  {
    hide ObservingAll, Receivers, ObservedFilter, PassesLocally;
    if filters != [] {
      var n := |filters| - 1;
      ReceptionsCount(observers, t, filters[..n], obj, o);
      ReceiversCount(observers, t, filters[n], obj, o);
      assert forall f :: f in filters <==> f == filters[n] || f in filters[..n];
    }
  }

  // ---------------------------------------------------------------- the shortcut for core types

  /** An object whose object type is that of a core type has this core type. */
  predicate IsConsistent(obj: TypedObject) {
    CoreTypeFor(obj.objectType).Some? ==> CoreTypeFor(obj.objectType) == Some(obj.coreType)
  }

  lemma FilterMatches(obj: TypedObject, o: Observer)
    requires IsCoreType(obj.coreType) && (o.subject.OfCoreType? ==> IsCoreType(o.subject.coreType))
    ensures Distinct(PublishedFilters(obj))
    ensures PassesLocally(o, obj) && ObservedFilter(o) in PublishedFilters(obj) <==>
            Wants(o, obj) && (o.subject.OfObjectType? ==> IsConsistent(obj))
  {
    CoreTypeForInverts(obj.coreType, obj.objectType);
    var own := ":" + obj.objectType;
    assert own[1..] == obj.objectType && own[0] == ':';
    assert forall c <- CORE_TYPES :: c[0] != ':';
    match o.subject
    case OfCoreType(_) =>
    case OfObjectType(objectType) =>
      var wanted := ":" + objectType;
      assert wanted[1..] == objectType && wanted[0] == ':';
      if CoreTypeFor(objectType).Some? {
        CoreTypeForInverts(CoreTypeFor(objectType).value, objectType);
      }
  }

  /**
   * Every observer receives every object it wants exactly once and no other, however many
   * observers share its request, exactly if core object types come with their core types.
   */
  lemma WantedOnce(t: EventType, obj: TypedObject)
    requires IsCoreType(obj.coreType)
    ensures (forall observers: seq<Observer>, o <- observers ::
               Distinct(observers) && (o.subject.OfCoreType? ==> IsCoreType(o.subject.coreType)) ==>
                 Receptions(observers, t, obj, o) == if o.eventType == t && Wants(o, obj) then 1 else 0)
            <==> IsConsistent(obj)
  {
    hide Receptions, PublishedFilters, ObservedFilter, PassesLocally, Wants, IsConsistent, IsCoreType;
    if IsConsistent(obj) {
      forall observers: seq<Observer>, o | o in observers && Distinct(observers)
                                           && (o.subject.OfCoreType? ==> IsCoreType(o.subject.coreType))
        ensures Receptions(observers, t, obj, o) == if o.eventType == t && Wants(o, obj) then 1 else 0
      {
        FilterMatches(obj, o);
        ReceptionsAre(observers, t, obj, o);
        CountDistinct(observers, o);
      }
    } else {
      var o := Observer(0, t, OfObjectType(obj.objectType));
      FilterMatches(obj, o);
      ReceptionsAre([o], t, obj, o);
      WantsOwnType(o, obj);
      assert o in [o] && Distinct([o]);
      assert Receptions([o], t, obj, o) == 0;
    }
  }

  lemma ReceptionsAre(observers: seq<Observer>, t: EventType, obj: TypedObject, o: Observer)
    requires Distinct(PublishedFilters(obj))
    ensures Receptions(observers, t, obj, o) ==
            if o.eventType == t && PassesLocally(o, obj) && ObservedFilter(o) in PublishedFilters(obj)
            then multiset(observers)[o] else 0
  {
    ReceptionsCount(observers, t, PublishedFilters(obj), obj, o);
  }

  lemma WantsOwnType(o: Observer, obj: TypedObject)
    requires o.subject == OfObjectType(obj.objectType)
    ensures Wants(o, obj)
  {
  }

  lemma {:induction false} CountDistinct(observers: seq<Observer>, o: Observer)
    requires Distinct(observers) && o in observers
    ensures multiset(observers)[o] == 1
  {
    var n := |observers| - 1;
    assert observers == observers[..n] + [observers[n]];
    if o == observers[n] {
      assert o !in observers[..n];
    } else {
      CountDistinct(observers[..n], o);
    }
  }
}

/**
 * The subscription side of the MQTT binding: the list of issued subscriptions, and the
 * filters the broker holds for the current clean session.
 */
module MqttSubscriptions {
  import opened Prelude
  import opened MqttTopic

  const API_VERSION := 3

  /** A request to subscribe or unsubscribe; for Raw and IoValue events the event type filter is the topic filter. */
  datatype Request = Request(eventType: EventType, eventTypeFilter: Option<string>, correlationId: Option<string>,
                             isDataRaw: bool, isExternalIoRoute: bool)

  datatype SubscriptionItem = SubscriptionItem(eventType: EventType, topicFilter: string, shouldDecodeData: bool)

  /** A namespace of `None` stands for enabled cross-namespacing. */
  function TopicFilterFor(namespace: Option<string>, r: Request): string {
    if r.eventType.Raw? || r.eventType.IoValue? then
      if r.eventTypeFilter.Some? then r.eventTypeFilter.value else ""
    else GetTopicFilter(API_VERSION, namespace, r.eventType, r.eventTypeFilter, r.correlationId)
  }

  /** Subscriptions on invalid Raw topics and IO routes are ignored. */
  predicate IsAccepted(namespace: Option<string>, r: Request) {
    var filter := TopicFilterFor(namespace, r);
    && (r.eventType.Raw? ==> !IsCoatyTopicLike(filter) && IsValidTopic(filter, true))
    && (r.eventType.IoValue? ==>
          !(r.isExternalIoRoute && IsCoatyTopicLike(filter)) && IsValidTopic(filter, false))
  }

  // ---------------------------------------------------------------- filters of different event types

  /** What every issued subscription satisfies. */
  ghost predicate IsProper(namespace: Option<string>, item: SubscriptionItem) {
    match item.eventType
    case Raw => !IsCoatyTopicLike(item.topicFilter)
    case IoValue => '+' !in item.topicFilter
    case _ => exists f, c :: item.topicFilter == GetTopicFilter(API_VERSION, namespace, item.eventType, f, c)
  }

  lemma AcceptedIsProper(namespace: Option<string>, r: Request)
    requires IsAccepted(namespace, r)
    ensures IsProper(namespace, SubscriptionItem(r.eventType, TopicFilterFor(namespace, r), !r.isDataRaw))
  {
    hide GetTopicFilter;
  }

  lemma UnderInjective(level: string, rest1: string, rest2: string)
    requires Under(level, rest1) == Under(level, rest2)
    ensures rest1 == rest2
  {
    assert rest1 == Under(level, rest1)[|level| + 1..];
    assert rest2 == Under(level, rest2)[|level| + 1..];
  }

  lemma CodeInjective(t1: EventType, t2: EventType)
    requires !t1.Raw? && !t2.Raw? && Code(t1) == Code(t2)
    ensures t1 == t2
  {
    TypeOfCode(t1);
    TypeOfCode(t2);
  }

  lemma FilterDeterminesType(namespace: Option<string>, t1: EventType, f1: Option<string>, c1: Option<string>,
                             t2: EventType, f2: Option<string>, c2: Option<string>)
    requires !t1.Raw? && !t2.Raw?
    requires GetTopicFilter(API_VERSION, namespace, t1, f1, c1) == GetTopicFilter(API_VERSION, namespace, t2, f2, c2)
    ensures t1 == t2
  {
    hide Under, EventLevel, Code;
    var end1 := if IsOneWay(t1) then "+" else Under("+", if Given(c1) then c1.value else "+");
    var end2 := if IsOneWay(t2) then "+" else Under("+", if Given(c2) then c2.value else "+");
    var ns := if Given(namespace) then namespace.value else "+";
    var rest1, rest2 := Under(EventLevel(t1, f1), end1), Under(EventLevel(t2, f2), end2);
    UnderInjective("coaty", Under(Decimal(API_VERSION), Under(ns, rest1)),
        Under(Decimal(API_VERSION), Under(ns, rest2)));
    UnderInjective(Decimal(API_VERSION), Under(ns, rest1), Under(ns, rest2));
    UnderInjective(ns, rest1, rest2);
    BeginsWithCode(t1, f1, end1);
    BeginsWithCode(t2, f2, end2);
    CodeInjective(t1, t2);
  }

  lemma BeginsWithCode(t: EventType, filter: Option<string>, end: string)
    requires !t.Raw?
    ensures |Under(EventLevel(t, filter), end)| >= 3 && Under(EventLevel(t, filter), end)[..3] == Code(t)
  {
    assert EventLevel(t, filter)[..3] == Code(t);
  }

  lemma CoatyFilterShape(namespace: Option<string>, t: EventType, f: Option<string>, c: Option<string>)
    requires !t.Raw?
    ensures var filter := GetTopicFilter(API_VERSION, namespace, t, f, c);
            IsCoatyTopicLike(filter) && '+' in filter
  {
    var end := if IsOneWay(t) then "+" else Under("+", if Given(c) then c.value else "+");
    assert '+' in end by { assert end[0] == '+'; }
    var rest := Under(EventLevel(t, f), end);
    assert '+' in rest;
  }

  /**
   * Subscriptions of different event types never share a topic filter, except that a Raw
   * and an IoValue subscription may.
   */
  lemma SharedFilter(namespace: Option<string>, item1: SubscriptionItem, item2: SubscriptionItem)
    requires IsProper(namespace, item1) && IsProper(namespace, item2) && item1.topicFilter == item2.topicFilter
    ensures || item1.eventType == item2.eventType
            || (item1.eventType.Raw? && item2.eventType.IoValue?)
            || (item1.eventType.IoValue? && item2.eventType.Raw?)
  {
    hide GetTopicFilter, IsCoatyTopicLike;
    if !item1.eventType.Raw? && !item1.eventType.IoValue? {
      var f1, c1 :| item1.topicFilter == GetTopicFilter(API_VERSION, namespace, item1.eventType, f1, c1);
      CoatyFilterShape(namespace, item1.eventType, f1, c1);
      if !item2.eventType.Raw? && !item2.eventType.IoValue? {
        var f2, c2 :| item2.topicFilter == GetTopicFilter(API_VERSION, namespace, item2.eventType, f2, c2);
        FilterDeterminesType(namespace, item1.eventType, f1, c1, item2.eventType, f2, c2);
      }
    } else if !item2.eventType.Raw? && !item2.eventType.IoValue? {
      var f2, c2 :| item2.topicFilter == GetTopicFilter(API_VERSION, namespace, item2.eventType, f2, c2);
      CoatyFilterShape(namespace, item2.eventType, f2, c2);
    }
  }

  // ---------------------------------------------------------------- the list of issued subscriptions

  predicate Has(items: seq<SubscriptionItem>, t: EventType, filter: string) {
    exists item <- items :: item.eventType == t && item.topicFilter == filter
  }

  /** The index of the first item with the given type and filter, or -1. */
  function FindIndex(items: seq<SubscriptionItem>, t: EventType, filter: string): (i: int)
    ensures -1 <= i < |items|
    ensures i == -1 <==> !Has(items, t, filter)
    ensures i >= 0 ==> items[i].eventType == t && items[i].topicFilter == filter
  {
    if items == [] then -1
    else if items[0].eventType == t && items[0].topicFilter == filter then 0
    else
      var i := FindIndex(items[1..], t, filter);
      assert items == [items[0]] + items[1..];
      if i == -1 then -1 else i + 1
  }

  ghost predicate NoDuplicates(items: seq<SubscriptionItem>) {
    forall i, j | 0 <= i < j < |items| ::
      !(items[i].eventType == items[j].eventType && items[i].topicFilter == items[j].topicFilter)
  }

  ghost function Filters(items: seq<SubscriptionItem>): set<string> {
    set i | 0 <= i < |items| :: items[i].topicFilter
  }

  /** Adds an item, replacing the one with its type and filter. */
  function Added(items: seq<SubscriptionItem>, item: SubscriptionItem): seq<SubscriptionItem> {
    var i := FindIndex(items, item.eventType, item.topicFilter);
    if i == -1 then items + [item] else items[i := item]
  }

  function Removed(items: seq<SubscriptionItem>, t: EventType, filter: string): seq<SubscriptionItem> {
    var i := FindIndex(items, t, filter);
    if i == -1 then items else RemoveAt(items, i)
  }

  lemma AddedFilters(items: seq<SubscriptionItem>, item: SubscriptionItem)
    requires NoDuplicates(items)
    ensures NoDuplicates(Added(items, item))
    ensures Filters(Added(items, item)) == Filters(items) + {item.topicFilter}
    ensures forall t, f :: Has(Added(items, item), t, f) <==>
        Has(items, t, f) || (t == item.eventType && f == item.topicFilter)
  {
    var after := Added(items, item);
    var at := FindIndex(items, item.eventType, item.topicFilter);
    forall f
      ensures f in Filters(after) <==> f in Filters(items) || f == item.topicFilter
    {
      if f in Filters(items) {
        var i :| 0 <= i < |items| && items[i].topicFilter == f;
        assert after[i].topicFilter == f;
      }
      if f == item.topicFilter {
        assert after[if at == -1 then |items| else at].topicFilter == f;
      }
    }
    forall t, f
      ensures Has(after, t, f) <==> Has(items, t, f) || (t == item.eventType && f == item.topicFilter)
    {
      if Has(items, t, f) {
        var i :| 0 <= i < |items| && items[i].eventType == t && items[i].topicFilter == f;
        assert after[i] in after;
      }
      assert item == after[if at == -1 then |items| else at];
      if Has(after, t, f) {
        var i :| 0 <= i < |after| && after[i].eventType == t && after[i].topicFilter == f;
        if i < |items| { assert items[i] in items; }
      }
    }
  }

  /** The new item takes the place of the one with its type and filter, and all others stay. */
  lemma AddedItems(items: seq<SubscriptionItem>, item: SubscriptionItem)
    requires NoDuplicates(items)
    ensures forall x :: x in Added(items, item) <==>
              x == item || (x in items && !(x.eventType == item.eventType && x.topicFilter == item.topicFilter))
  {
    var after, at := Added(items, item), FindIndex(items, item.eventType, item.topicFilter);
    assert after[if at == -1 then |items| else at] == item;
    forall x
      ensures x in after <==>
                x == item || (x in items && !(x.eventType == item.eventType && x.topicFilter == item.topicFilter))
    {
      if x in items && !(x.eventType == item.eventType && x.topicFilter == item.topicFilter) {
        var i :| 0 <= i < |items| && items[i] == x;
        assert after[i] == x;
      }
      if x in after && x != item {
        var i :| 0 <= i < |after| && after[i] == x;
        assert i < |items| && items[i] == x;
      }
    }
  }

  lemma FilterOfOne(item: SubscriptionItem)
    ensures Filters([item]) == {item.topicFilter}
  {
    assert [item][0] == item;
  }

  lemma RemovedFilters(items: seq<SubscriptionItem>, t: EventType, filter: string)
    requires NoDuplicates(items)
    ensures var after := Removed(items, t, filter);
            && NoDuplicates(after) && (forall item <- after :: item in items)
            && (forall t', f' :: Has(after, t', f') <==> Has(items, t', f') && !(t' == t && f' == filter))
            && (forall f :: f in Filters(after) <==> exists t' :: Has(after, t', f))
  {
    var after := Removed(items, t, filter);
    var at := FindIndex(items, t, filter);
    if at != -1 {
      assert forall i | 0 <= i < |after| :: after[i] == items[if i < at then i else i + 1];
    }
    forall t', f'
      ensures Has(after, t', f') <==> Has(items, t', f') && !(t' == t && f' == filter)
    {
      if Has(items, t', f') && !(t' == t && f' == filter) {
        var i :| 0 <= i < |items| && items[i].eventType == t' && items[i].topicFilter == f';
        if at != -1 { assert i != at && after[if i < at then i else i - 1] == items[i]; }
      }
    }
    FiltersAreHad(after);
  }

  lemma FiltersAreHad(items: seq<SubscriptionItem>)
    ensures forall f :: f in Filters(items) <==> exists t :: Has(items, t, f)
  {
    forall f
      ensures f in Filters(items) <==> exists t :: Has(items, t, f)
    {
      if f in Filters(items) {
        var i :| 0 <= i < |items| && items[i].topicFilter == f;
        assert Has(items, items[i].eventType, f) by { assert items[i] in items; }
      }
    }
  }

  /** The event type that may share a topic filter with the given one. */
  function OtherType(t: EventType): Option<EventType> {
    if t.Raw? then Some(IoValue) else if t.IoValue? then Some(Raw) else None
  }

  /**
   * After removing an issued subscription its filter is still needed iff the other of the
   * two event types that may share filters has a subscription on it.
   */
  lemma RemovedNeeds(namespace: Option<string>, items: seq<SubscriptionItem>, t: EventType, filter: string)
    requires NoDuplicates(items) && (forall item <- items :: IsProper(namespace, item))
    requires Has(items, t, filter)
    ensures var after := Removed(items, t, filter);
            Filters(after) ==
              if OtherType(t).Some? && Has(after, OtherType(t).value, filter) then Filters(items)
              else Filters(items) - {filter}
  {
    hide IsProper, Filters, NoDuplicates;
    RemovedFilters(items, t, filter);
    FiltersAreHad(items);
    var after := Removed(items, t, filter);
    forall t' | Has(after, t', filter)
      ensures OtherType(t) == Some(t')
    {
      var item' :| item' in after && item'.eventType == t' && item'.topicFilter == filter;
      var item :| item in items && item.eventType == t && item.topicFilter == filter;
      SharedFilter(namespace, item, item');
    }
    assert forall f | f != filter :: f in Filters(after) <==> f in Filters(items) by {
      forall f | f != filter
        ensures f in Filters(after) <==> f in Filters(items)
      {
        if f in Filters(items) {
          var t' :| Has(items, t', f);
          assert Has(after, t', f);
        }
      }
    }
  }

  // ---------------------------------------------------------------- inbound messages

  /**
   * An event handed over, its data decoded or as it came. For Raw and IoValue events the
   * filter is the topic, and `correlation` is the subscription filter.
   */
  datatype Inbound = Inbound(eventType: Option<EventType>, eventTypeFilter: Option<string>,
                             sourceId: Option<string>, correlation: Option<string>, isDecoded: bool)

  /** The subscription is meant by a message on a topic that may carry Raw and IoValue events. */
  ghost predicate IsMeant(item: SubscriptionItem, topicName: string) {
    || (item.eventType.Raw? && Accepts(topicName, item.topicFilter))
    || (item.eventType.IoValue? && topicName == item.topicFilter)
  }

  /** Decoding the payload throws, which ends the hand-over of the message. */
  ghost predicate Throws(item: SubscriptionItem, topicName: string, isJson: bool) {
    IsMeant(item, topicName) && item.shouldDecodeData && !isJson
  }

  ghost predicate ThrowsForAny(items: seq<SubscriptionItem>, topicName: string, isJson: bool) {
    exists item <- items :: Throws(item, topicName, isJson)
  }

  function InboundFrom(item: SubscriptionItem, topicName: string, sourceId: Option<string>): Inbound {
    Inbound(Some(item.eventType), Some(topicName), sourceId, Some(item.topicFilter), item.shouldDecodeData)
  }

  /** The events for the subscriptions that are meant, in order, up to one that throws. */
  ghost function InboundByItem(items: seq<SubscriptionItem>, topicName: string, sourceId: Option<string>, isJson: bool)
    : seq<Inbound>
  {
    if items == [] then []
    else
      var item, front := items[|items| - 1], items[..|items| - 1];
      InboundByItem(front, topicName, sourceId, isJson) +
      if !ThrowsForAny(items, topicName, isJson) && IsMeant(item, topicName) then
        [InboundFrom(item, topicName, sourceId)]
      else []
  }

  /** The topic may carry Raw and IoValue events. */
  predicate IsRouteLike(topicName: string) {
    var p := CreateByName(topicName);
    p.NotCoaty? || (p.Coaty? && p.topic.eventType == Some(IoValue))
  }

  /** What a message is handed over as; `isJson` says whether its payload can be decoded. */
  ghost function InboundFor(items: seq<SubscriptionItem>, topicName: string, isJson: bool): seq<Inbound> {
    var p := CreateByName(topicName);
    if IsRouteLike(topicName) then
      InboundByItem(items, topicName, if p.Coaty? then p.topic.sourceId else None, isJson)
    else if p.Coaty? && isJson then
      [Inbound(p.topic.eventType, p.topic.eventTypeFilter, p.topic.sourceId, p.topic.correlationId, true)]
    else []
  }

  /** The subscriptions for which IO values are handed over, in order. */
  function IoValueRoutes(inbound: seq<Inbound>): seq<string> {
    if inbound == [] then []
    else
      var last := inbound[|inbound| - 1];
      IoValueRoutes(inbound[..|inbound| - 1]) +
      if last.eventType == Some(IoValue) && last.correlation.Some? then [last.correlation.value] else []
  }

  lemma HasLast(items: seq<SubscriptionItem>, t: EventType, filter: string)
    requires items != [] && NoDuplicates(items)
    ensures var item := items[|items| - 1];
            Has(items, t, filter) <==>
            if item.eventType == t && item.topicFilter == filter then !Has(items[..|items| - 1], t, filter)
            else Has(items[..|items| - 1], t, filter)
  {
    var n := |items| - 1;
    assert items[n] in items;
    if Has(items[..n], t, filter) {
      var i :| 0 <= i < n && items[..n][i].eventType == t && items[..n][i].topicFilter == filter;
      assert items[i] in items && items[i] == items[..n][i];
    }
    if Has(items, t, filter) {
      var i :| 0 <= i <= n && items[i].eventType == t && items[i].topicFilter == filter;
      if i < n { assert items[..n][i] == items[i]; }
    }
  }

  lemma IoValueRoutesAppend(inbound: seq<Inbound>, i: Inbound)
    ensures IoValueRoutes(inbound + [i]) == IoValueRoutes(inbound) +
            if i.eventType == Some(IoValue) && i.correlation.Some? then [i.correlation.value] else []
  {
    assert (inbound + [i])[..|inbound|] == inbound;
  }

  /**
   * An IO value is handed over exactly once if its route is subscribed, and not at all
   * otherwise, unless some subscription asks for decoding a payload that cannot be decoded.
   */
  lemma {:induction false} IoValueHandedOver(items: seq<SubscriptionItem>, topicName: string, sourceId: Option<string>,
                                             isJson: bool)
    requires NoDuplicates(items) && !ThrowsForAny(items, topicName, isJson)
    ensures IoValueRoutes(InboundByItem(items, topicName, sourceId, isJson)) ==
            if Has(items, IoValue, topicName) then [topicName] else []
  {
    if items != [] {
      var n := |items| - 1;
      IoValueHandedOver(items[..n], topicName, sourceId, isJson);
      HasLast(items, IoValue, topicName);
      var inbound := InboundByItem(items[..n], topicName, sourceId, isJson);
      var i := InboundFrom(items[n], topicName, sourceId);
      IoValueRoutesAppend(inbound, i);
      hide Has, NoDuplicates, IoValueRoutes, Accepts, ThrowsForAny;
      if IsMeant(items[n], topicName) {
        assert InboundByItem(items, topicName, sourceId, isJson) == inbound + [i];
      } else {
        assert InboundByItem(items, topicName, sourceId, isJson) == inbound;
      }
    }
  }

  lemma NothingInbound(topicName: string, sourceId: Option<string>, isJson: bool)
    ensures InboundByItem([], topicName, sourceId, isJson) == [] && !ThrowsForAny([], topicName, isJson)
  {
  }

  lemma DoesThrow(item: SubscriptionItem, topicName: string)
    requires IsMeant(item, topicName) && item.shouldDecodeData
    ensures Throws(item, topicName, false)
  {
  }

  /** One more subscription, for which decoding does not throw. */
  lemma InboundNext(items: seq<SubscriptionItem>, item: SubscriptionItem, topicName: string, sourceId: Option<string>,
                    isJson: bool)
    requires !ThrowsForAny(items, topicName, isJson)
    requires IsMeant(item, topicName) ==> !item.shouldDecodeData || isJson
    ensures !ThrowsForAny(items + [item], topicName, isJson)
    ensures InboundByItem(items + [item], topicName, sourceId, isJson) ==
            InboundByItem(items, topicName, sourceId, isJson) +
            if IsMeant(item, topicName) then [InboundFrom(item, topicName, sourceId)] else []
  {
    hide IsMeant;
    ThrowsNext(items, item, topicName, isJson);
    assert (items + [item])[..|items|] == items;
  }

  lemma ThrowsNext(items: seq<SubscriptionItem>, item: SubscriptionItem, topicName: string, isJson: bool)
    ensures ThrowsForAny(items + [item], topicName, isJson) <==>
            ThrowsForAny(items, topicName, isJson) || Throws(item, topicName, isJson)
  {
    hide Throws;
    assert (items + [item])[|items|] == item;
  }

  /** After a subscription for which decoding throws, nothing is handed over. */
  lemma {:induction false} NothingAfterThrow(items: seq<SubscriptionItem>, i: nat, topicName: string,
          sourceId: Option<string>, isJson: bool)
    requires i < |items| && Throws(items[i], topicName, isJson)
    ensures InboundByItem(items, topicName, sourceId, isJson) ==
            InboundByItem(items[..i], topicName, sourceId, isJson)
  {
    hide Throws, IsMeant;
    assert ThrowsForAny(items, topicName, isJson) by { assert items[i] in items; }
    var n := |items| - 1;
    if i < n {
      NothingAfterThrow(items[..n], i, topicName, sourceId, isJson);
      assert items[..n][..i] == items[..i];
    }
  }

  // ---------------------------------------------------------------- what is handed over

  /** The topic is that of an event of type `t` with this filter, source and correlation id. */
  ghost predicate IsNameOf(topicName: string, version: nat, namespace: string, t: EventType, filter: Option<string>,
                           sourceId: string, correlationId: string)
  {
    && !t.Raw? && IsLevel(namespace) && IsLevel(sourceId) && IsLevel(correlationId) && correlationId != ""
    && (filter.Some? ==> IsLevel(filter.value))
    && topicName == GetTopicName(version, namespace, t, filter, sourceId, Some(correlationId))
  }

  /** Requests and their responses, which alone carry correlation ids. */
  predicate IsTwoWay(t: EventType) {
    t in [Discover, Resolve, Query, Retrieve, Update, Complete, Call, Return]
  }

  /**
   * A message on the topic of an event other than Raw and IoValue is handed over once, as what
   * it was published as, whatever is subscribed; unless its payload cannot be decoded.
   */
  lemma CoatyEventHandedOver(items: seq<SubscriptionItem>, topicName: string, isJson: bool, version: nat,
                             namespace: string, t: EventType, filter: Option<string>, sourceId: string,
                             correlationId: string)
    requires IsNameOf(topicName, version, namespace, t, filter, sourceId, correlationId) && !t.IoValue?
    ensures InboundFor(items, topicName, isJson) ==
            if isJson then
              [Inbound(Some(t), if filter == Some("") then None else filter, Some(sourceId),
                       if IsTwoWay(t) then Some(correlationId) else None, true)]
            else []
  {
    hide GetTopicName, CreateByName;
    ParseTopicName(version, namespace, t, filter, sourceId, Some(correlationId));
  }

  /** The filter matches the topic by the standard, or as the code takes it beyond the standard. */
  ghost predicate IsRawMatch(topicName: string, filter: string) {
    && topicName != "" && filter != ""
    && (|| Mqtt311Matches(topicName, filter)
        || Overmatches(Split(topicName), Split(filter))
        || (topicName[0] == '$' && (filter[0] == '+' || filter[0] == '#') &&
            LevelsMatch(Split(topicName), Split(filter))))
  }

  /** The filters of the Raw subscriptions that match a topic, in order, each with whether it asks for decoding. */
  ghost function RawMatches(items: seq<SubscriptionItem>, topicName: string): seq<(string, bool)> {
    if items == [] then []
    else
      var last := items[|items| - 1];
      RawMatches(items[..|items| - 1], topicName) +
      if last.eventType.Raw? && IsRawMatch(topicName, last.topicFilter) then
        [(last.topicFilter, last.shouldDecodeData)]
      else []
  }

  /** The Raw events handed over, in order, by subscription filter and with whether their data are decoded. */
  function RawEvents(inbound: seq<Inbound>): seq<(string, bool)> {
    if inbound == [] then []
    else
      var last := inbound[|inbound| - 1];
      RawEvents(inbound[..|inbound| - 1]) +
      if last.eventType == Some(Raw) && last.correlation.Some? then [(last.correlation.value, last.isDecoded)] else []
  }

  /** Raw events are handed over for exactly the Raw subscriptions whose filters match the topic, once for each. */
  ghost predicate HandsOverRaw(items: seq<SubscriptionItem>, topicName: string, inbound: seq<Inbound>) {
    RawEvents(inbound) == RawMatches(items, topicName) && forall e <- inbound :: e.eventTypeFilter == Some(topicName)
  }

  lemma RawIsMeant(item: SubscriptionItem, topicName: string)
    requires item.eventType.Raw?
    ensures IsMeant(item, topicName) <==> IsRawMatch(topicName, item.topicFilter)
  {
    hide Split;
  }

  lemma RawEventsAppend(inbound: seq<Inbound>, e: Inbound)
    ensures RawEvents(inbound + [e]) == RawEvents(inbound) +
            if e.eventType == Some(Raw) && e.correlation.Some? then [(e.correlation.value, e.isDecoded)] else []
  {
    assert (inbound + [e])[..|inbound|] == inbound;
  }

  lemma {:induction false} RawHandedOver(items: seq<SubscriptionItem>, topicName: string, sourceId: Option<string>,
                                         isJson: bool)
    requires !ThrowsForAny(items, topicName, isJson)
    ensures HandsOverRaw(items, topicName, InboundByItem(items, topicName, sourceId, isJson))
  {
    if items != [] {
      hide IsMeant, IsRawMatch, InboundByItem, Throws, RawEvents, ThrowsForAny;
      var n := |items| - 1;
      var item := items[n];
      assert items == items[..n] + [item];
      ThrowsNext(items[..n], item, topicName, isJson);
      RawHandedOver(items[..n], topicName, sourceId, isJson);
      LastInbound(items, topicName, sourceId, isJson);
      if item.eventType.Raw? {
        RawIsMeant(item, topicName);
      }
      var before := InboundByItem(items[..n], topicName, sourceId, isJson);
      RawEventsAppend(before, InboundFrom(item, topicName, sourceId));
      if !IsMeant(item, topicName) {
        assert InboundByItem(items, topicName, sourceId, isJson) == before;
      }
    } else {
      NothingInbound(topicName, sourceId, isJson);
    }
  }

  lemma LastInbound(items: seq<SubscriptionItem>, topicName: string, sourceId: Option<string>, isJson: bool)
    requires items != [] && !ThrowsForAny(items, topicName, isJson)
    ensures var n := |items| - 1;
            InboundByItem(items, topicName, sourceId, isJson) ==
            InboundByItem(items[..n], topicName, sourceId, isJson) +
            if IsMeant(items[n], topicName) then [InboundFrom(items[n], topicName, sourceId)] else []
  {
  }

  lemma DispatchedAsPublished(items: seq<SubscriptionItem>, topicName: string, isJson: bool)
    ensures forall version, namespace, t, filter, sourceId, correlationId
              | IsNameOf(topicName, version, namespace, t, filter, sourceId, correlationId) && !t.IoValue? ::
              InboundFor(items, topicName, isJson) ==
              if isJson then
                [Inbound(Some(t), if filter == Some("") then None else filter, Some(sourceId),
                         if IsTwoWay(t) then Some(correlationId) else None, true)]
              else []
    ensures IsRouteLike(topicName) && !ThrowsForAny(items, topicName, isJson) ==>
              HandsOverRaw(items, topicName, InboundFor(items, topicName, isJson))
  {
    forall version, namespace, t, filter, sourceId, correlationId
      | IsNameOf(topicName, version, namespace, t, filter, sourceId, correlationId) && !t.IoValue?
      ensures InboundFor(items, topicName, isJson) ==
              if isJson then
                [Inbound(Some(t), if filter == Some("") then None else filter, Some(sourceId),
                         if IsTwoWay(t) then Some(correlationId) else None, true)]
              else []
    {
      CoatyEventHandedOver(items, topicName, isJson, version, namespace, t, filter, sourceId, correlationId);
    }
    if IsRouteLike(topicName) && !ThrowsForAny(items, topicName, isJson) {
      hide ThrowsForAny, HandsOverRaw, InboundByItem;
      var p := CreateByName(topicName);
      RawHandedOver(items, topicName, if p.Coaty? then p.topic.sourceId else None, isJson);
    }
  }

  // ---------------------------------------------------------------- what is asked for

  /** A subscription for a Coaty event asks for exactly the events it names. */
  lemma RequestedEventsMatch(namespace: Option<string>, r: Request, version: nat, ns: string, t: EventType,
                             filter: Option<string>, sourceId: string, correlationId: string)
    requires !r.eventType.Raw? && !r.eventType.IoValue? && !t.Raw?
    requires IsPlain(ns) && IsPlain(sourceId) && IsPlain(correlationId) && (filter.Some? ==> IsPlain(filter.value))
    requires namespace.Some? ==> IsPlain(namespace.value)
    requires r.eventTypeFilter.Some? ==> IsPlain(r.eventTypeFilter.value)
    requires r.correlationId.Some? ==> IsPlain(r.correlationId.value)
    ensures Accepts(GetTopicName(version, ns, t, filter, sourceId, Some(correlationId)),
                    TopicFilterFor(namespace, r)) <==>
            && version == API_VERSION && t == r.eventType
            && (if Given(filter) then r.eventTypeFilter == filter else !Given(r.eventTypeFilter))
            && (Given(namespace) ==> ns == namespace.value)
            && (IsTwoWay(t) && Given(r.correlationId) ==> correlationId == r.correlationId.value)
  {
    hide Split, LevelsMatch, Overmatches, Decimal, EventLevel;
    NameMatchesFilter(version, ns, t, filter, sourceId, correlationId,
      API_VERSION, namespace, r.eventType, r.eventTypeFilter, r.correlationId);
  }

  // ---------------------------------------------------------------- the binding

  class MqttSubscriptions {
    const namespace: Option<string>
    var issued: seq<SubscriptionItem>
    var connected: bool
    var brokerFilters: set<string>  // the filters in the broker's session of this client

    /** No duplicates, and whenever connected, the broker holds exactly the filters of the issued subscriptions. */
    ghost predicate Valid()
      reads this
    {
      && NoDuplicates(issued)
      && (forall item <- issued :: IsProper(namespace, item))
      && (connected ==> brokerFilters == Filters(issued))
    }

    constructor (namespace: Option<string>)
      ensures Valid() && issued == [] && !connected && this.namespace == namespace
    {
      this.namespace := namespace;
      issued, connected, brokerFilters := [], false, {};
    }

    /** A (re)connection starts a clean session in the broker; all issued items are subscribed again. */
    method OnConnect()
      requires Valid()
      modifies this`connected, this`brokerFilters
      ensures Valid() && connected
    {
      connected, brokerFilters := true, {};
      SubscribeItems(issued);
    }

    method OnDisconnect()
      requires Valid()
      modifies this`connected
      ensures Valid() && !connected
    {
      connected := false;
    }

    method OnSubscribe(r: Request)
      requires Valid()
      modifies this`issued, this`brokerFilters
      ensures Valid()
      ensures
        var topic := if r.eventTypeFilter.Some? then r.eventTypeFilter.value else "";
        var isIgnored :=
          || (r.eventType.Raw? && ("coaty/" <= topic || !IsValidTopic(topic, true)))
          || (r.eventType.IoValue? && ((r.isExternalIoRoute && "coaty/" <= topic) || !IsValidTopic(topic, false)));
        issued == if isIgnored then old(issued)
                  else Added(old(issued), SubscriptionItem(r.eventType, TopicFilterFor(namespace, r), !r.isDataRaw))
    {
      var filter := TopicFilterFor(namespace, r);
      if r.eventType.Raw? && (IsCoatyTopicLike(filter) || !IsValidTopic(filter, true)) {
        return;
      }
      if r.eventType.IoValue? &&
         ((r.isExternalIoRoute && IsCoatyTopicLike(filter)) || !IsValidTopic(filter, false)) {
        return;
      }
      AddSubscriptionItem(r);
    }

    method AddSubscriptionItem(r: Request)
      requires Valid() && IsAccepted(namespace, r)
      modifies this`issued, this`brokerFilters
      ensures Valid()
      ensures issued == Added(old(issued), SubscriptionItem(r.eventType, TopicFilterFor(namespace, r), !r.isDataRaw))
    {
      hide IsProper, IsAccepted, TopicFilterFor, Filters, NoDuplicates, Has;
      var item := SubscriptionItem(r.eventType, TopicFilterFor(namespace, r), !r.isDataRaw);
      AcceptedIsProper(namespace, r);
      FilterOfOne(item);
      AddedFilters(issued, item);
      var index := FindIndex(issued, r.eventType, item.topicFilter);
      if index == -1 {
        issued := issued + [item];
      } else {
        issued := issued[index := item];
      }
      SubscribeItems([item]);
    }

    method OnUnsubscribe(r: Request)
      requires Valid()
      modifies this`issued, this`brokerFilters
      ensures Valid()
      ensures issued == Removed(old(issued), r.eventType, TopicFilterFor(namespace, r))
    {
      var filter := TopicFilterFor(namespace, r);
      var index := FindIndex(issued, r.eventType, filter);
      if index == -1 {
        return;
      }
      RemovedFilters(issued, r.eventType, filter);
      RemovedNeeds(namespace, issued, r.eventType, filter);
      var item := issued[index];
      issued := RemoveAt(issued, index);
      var other := OtherType(r.eventType);
      if other.Some? && Has(issued, other.value, filter) {
        return;
      }
      UnsubscribeItem(item);
    }

    /**
     * Hands an inbound message over to the communication manager. A topic without event
     * level is an error, as is a payload that is to be decoded but cannot be.
     */
    method DispatchMessage(topicName: string, isJson: bool) returns (inbound: seq<Inbound>)
      ensures inbound == InboundFor(issued, topicName, isJson)
      ensures forall version, namespace, t, filter, sourceId, correlationId
                | IsNameOf(topicName, version, namespace, t, filter, sourceId, correlationId) && !t.IoValue? ::
                inbound ==
                if isJson then
                  [Inbound(Some(t), if filter == Some("") then None else filter, Some(sourceId),
                           if IsTwoWay(t) then Some(correlationId) else None, true)]
                else []
      ensures IsRouteLike(topicName) && !ThrowsForAny(issued, topicName, isJson) ==>
                HandsOverRaw(issued, topicName, inbound)
    {
      DispatchedAsPublished(issued, topicName, isJson);
      hide InboundByItem, ThrowsForAny, HandsOverRaw, IsNameOf;
      var parsed := CreateByName(topicName);
      if parsed.TypeError? {
        return [];
      }
      if parsed.NotCoaty? || parsed.topic.eventType == Some(IoValue) {
        inbound := DispatchByItem(topicName, if parsed.Coaty? then parsed.topic.sourceId else None, isJson);
        return;
      }
      if !isJson {
        return [];
      }
      var topic := parsed.topic;
      inbound := [Inbound(topic.eventType, topic.eventTypeFilter, topic.sourceId, topic.correlationId, true)];
    }

    method DispatchByItem(topicName: string, sourceId: Option<string>, isJson: bool) returns (inbound: seq<Inbound>)
      ensures inbound == InboundByItem(issued, topicName, sourceId, isJson)
    {
      hide InboundByItem, Throws, ThrowsForAny, Accepts;
      inbound := [];
      NothingInbound(topicName, sourceId, isJson);
      for i := 0 to |issued|
        invariant inbound == InboundByItem(issued[..i], topicName, sourceId, isJson)
        invariant !ThrowsForAny(issued[..i], topicName, isJson)
      {
        var item := issued[i];
        assert issued[..i + 1] == issued[..i] + [item];
        var isMeant := item.eventType.IoValue? && topicName == item.topicFilter;
        if item.eventType.Raw? {
          isMeant := Matches(topicName, item.topicFilter);
        }
        if isMeant {
          if item.shouldDecodeData && !isJson {
            DoesThrow(item, topicName);
            NothingAfterThrow(issued, i, topicName, sourceId, isJson);
            return;
          }
          inbound := inbound + [InboundFrom(item, topicName, sourceId)];
        }
        InboundNext(issued[..i], item, topicName, sourceId, isJson);
      }
      assert issued[..|issued|] == issued;
    }

    /** Sends a SUBSCRIBE packet if connected. */
    method SubscribeItems(items: seq<SubscriptionItem>)
      modifies this`brokerFilters
      ensures brokerFilters == if connected then old(brokerFilters) + Filters(items) else old(brokerFilters)
    {
      if connected {
        for i := 0 to |items|
          invariant brokerFilters == old(brokerFilters) + Filters(items[..i])
        {
          assert Filters(items[..i + 1]) == Filters(items[..i]) + {items[i].topicFilter} by {
            assert items[..i + 1][i] == items[i];
            forall k | 0 <= k < i
              ensures items[..i + 1][k] == items[..i][k]
            {}
          }
          brokerFilters := brokerFilters + {items[i].topicFilter};
        }
        assert items[..|items|] == items;
      }
    }

    /** Sends an UNSUBSCRIBE packet if connected. */
    method UnsubscribeItem(item: SubscriptionItem)
      modifies this`brokerFilters
      ensures brokerFilters == if connected then old(brokerFilters) - {item.topicFilter} else old(brokerFilters)
    {
      if connected {
        brokerFilters := brokerFilters - {item.topicFilter};
      }
    }
  }
}

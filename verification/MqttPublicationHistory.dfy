/**
 * What becomes of publications, told by the events alone: which items are ever queued, which
 * ones are done with, who is told of failures, and when publications rest.
 */
module MqttPublicationHistory {
  import opened Prelude
  import opened MqttPublications
  import opened MqttPublicationRuns

  // ---------------------------------------------------------------- what was asked for

  /** The join events and the unjoin event of the first join, unless the binding was unjoined before. */
  function JoinedWith(events: seq<Event>): Option<Event> {
    if events == [] then None
    else
      var last, before := events[|events| - 1], events[..|events| - 1];
      if JoinedWith(before).Some? then JoinedWith(before)
      else if last.Join? && Event.Unjoined !in before then Some(last)
      else None
  }

  /**
   * What is to be published, with a mark for the unjoin event: the topics of all publications
   * before unjoining that can be composed, then that of the unjoin event of a joined binding.
   */
  function AskedFor(events: seq<Event>): seq<(string, bool)> {
    if events == [] then []
    else
      var last, before := events[|events| - 1], events[..|events| - 1];
      AskedFor(before) +
      if Event.Unjoined in before then []
      else match last
        case Published(topic) => if topic.Some? then [(topic.value, false)] else []
        case Unjoined =>
          var joined := JoinedWith(before);
          if joined.Some? && joined.value.Join? && joined.value.unjoinEvent.Some? then
            [(joined.value.unjoinEvent.value, true)]
          else []
        case _ => []
  }

  function Labels(items: seq<Item>): seq<(string, bool)> {
    seq(|items|, i requires 0 <= i < |items| => (items[i].topic, items[i].hasCallback))
  }

  lemma LabelsConcat(a: seq<Item>, b: seq<Item>)
    ensures Labels(a + b) == Labels(a) + Labels(b)
  {
  }

  /** The binding's phase, events and client, as the events so far have it. */
  ghost predicate IsIn(b: Binding, events: seq<Event>) {
    var joined := JoinedWith(events);
    && (joined.Some? ==> joined.value.Join? && b.joinEvents == joined.value.joinEvents &&
                         b.unjoinEvent == joined.value.unjoinEvent)
    && (joined.None? ==> b.joinEvents == [] && b.unjoinEvent == None)
    && b.phase == (if Event.Unjoined in events then Phase.Unjoined
                   else if joined.Some? then Phase.Joined
                   else Initialized)
    && (b.queue.hasClient <==> joined.Some? && Ended !in events)
    && (Ended in events ==> Event.Unjoined in events)
  }

  /** Phase, join events, unjoin event and client are determined by the events. */
  lemma {:induction false} StateFromEvents(events: seq<Event>)
    requires IsRun(events)
    ensures IsIn(After(events).binding, events)
  {
    if events == [] {
    } else {
      var before, e := events[..|events| - 1], events[|events| - 1];
      StateFromEvents(before);
      var b := After(before).binding;
      assert forall x :: x in events <==> x in before || x == e;
      StepKeepsOptions(b, e);
    }
  }

  /** What a single event does to phase, options and client. */
  lemma StepKeepsOptions(b: Binding, e: Event)
    requires Possible(b, e)
    ensures var c := Step(b, e);
      && (if e.Join? && b.phase.Initialized? then
            c.phase.Joined? && c.joinEvents == e.joinEvents && c.unjoinEvent == e.unjoinEvent && c.queue.hasClient
          else
            && c.joinEvents == b.joinEvents && c.unjoinEvent == b.unjoinEvent
            && c.phase == (if e.Unjoined? then Phase.Unjoined else b.phase)
            && (c.queue.hasClient <==> b.queue.hasClient && !e.Ended?))
  {
    hide HasTopic, Failures, AddJoins;
    if e.Connected? {
      AddJoinsKeepsClient(b.queue, b.joinEvents);
    }
  }

  lemma AddQueues(q: Queue, topic: Option<string>, hasCallback: bool)
    ensures Labels(Ordinary(Add(q, topic, false, hasCallback, false, false).accepted)) ==
            Labels(Ordinary(q.accepted)) + if topic.Some? then [(topic.value, hasCallback)] else []
  {
    if topic.Some? {
      var item := Item(q.nextId, topic.value, false, hasCallback);
      Appended(q.accepted, item);
      LabelsConcat(Ordinary(q.accepted), [item]);
    }
  }

  lemma {:induction false} AddJoinsQueuesNothing(q: Queue, joins: seq<Option<string>>)
    ensures Ordinary(AddJoins(q, joins).accepted) == Ordinary(q.accepted)
  {
    hide HasTopic, Ordinary;
    if joins != [] {
      var r := AddJoins(q, joins[1..]);
      AddJoinsQueuesNothing(q, joins[1..]);
      if joins[0].Some? {
        Appended(r.accepted, Item(r.nextId, joins[0].value, true, false));
      }
    }
  }

  lemma DrainAccepts(q: Queue)
    ensures Drain(q).accepted == DoDrain(q).accepted == q.accepted
  {
  }

  /** What a single event queues. */
  lemma StepQueues(b: Binding, e: Event)
    requires Possible(b, e) && (e.Unjoined? && !b.phase.Unjoined? && !b.queue.hasClient ==> b.unjoinEvent == None)
    ensures Labels(Ordinary(Step(b, e).queue.accepted)) ==
            Labels(Ordinary(b.queue.accepted)) +
            if b.phase.Unjoined? then []
            else match e
              case Published(topic) => if topic.Some? then [(topic.value, false)] else []
              case Unjoined => if b.unjoinEvent.Some? then [(b.unjoinEvent.value, true)] else []
              case _ => []
  {
    hide HasTopic, Failures, AddJoins, Ordinary, Labels, Add, DoDrain, Drain, ItemIndex;
    match e
    case Published(topic) =>
      AddQueues(b.queue, topic, false);
      DrainAccepts(Add(b.queue, topic, false, false, false, false));
    case Unjoined =>
      AddQueues(b.queue, b.unjoinEvent, true);
      DrainAccepts(Add(b.queue, b.unjoinEvent, false, true, false, false));
    case Connected =>
      AddJoinsQueuesNothing(b.queue, b.joinEvents);
      DrainAccepts(AddJoins(b.queue, b.joinEvents).(isDraining := false));
    case CalledBack(k, failed) =>
      var q := b.queue.(outstanding := b.queue.outstanding - {k});
      DrainAccepts(Acknowledge(q, b.queue.handed[k].item));
    case _ =>
  }

  /** The ordinary items ever queued are those asked for, in that order, each once. */
  lemma {:induction false} AskedForIsQueued(events: seq<Event>)
    requires IsRun(events)
    ensures Labels(Ordinary(After(events).binding.queue.accepted)) == AskedFor(events)
  {
    hide Step, Labels, Possible;
    if events == [] {
      NothingQueued();
    } else {
      var before, e := events[..|events| - 1], events[|events| - 1];
      AskedForIsQueued(before);
      StateFromEvents(before);
      StepQueues(After(before).binding, e);
    }
  }

  lemma NothingQueued()
    ensures Labels(Ordinary(INITIAL.queue.accepted)) == []
  {
  }

  /**
   * Everything asked for, in order, is acknowledged, still pending, or discarded in the end;
   * and it is discarded only after unjoining.
   */
  lemma EverythingAskedForIsKept(events: seq<Event>)
    requires IsRun(events)
    ensures var q := After(events).binding.queue;
      && Labels(Ordinary(q.acked) + Ordinary(q.pending) + Ordinary(q.discarded)) == AskedFor(events)
      && (q.discarded != [] ==> Event.Unjoined in events && q.pending == [])
  {
    hide Ordinary, Labels;
    AskedForIsQueued(events);
    StateFromEvents(events);
    AlwaysInv(events);
  }

  // ---------------------------------------------------------------- what is done with

  /** The client reported success for a call that published the item. */
  ghost predicate IsConfirmed(events: seq<Event>, handed: seq<Handover>, item: Item) {
    exists k | 0 <= k < |handed| :: handed[k].item == item && CalledBack(k, false) in events
  }

  /** Acknowledged items were confirmed; confirmed items are acknowledged, or discarded. */
  ghost predicate AcksAreConfirmed(q: Queue, events: seq<Event>) {
    && (forall item <- q.acked :: IsConfirmed(events, q.handed, item))
    && (forall k | 0 <= k < |q.handed| && CalledBack(k, false) in events ::
          q.handed[k].item in q.acked || q.handed[k].item in q.discarded)
    && (forall k: nat, failed | CalledBack(k, failed) in events :: k < |q.handed|)
  }

  /** The lists that only grow. */
  ghost predicate Grows(q: Queue, r: Queue) {
    q.handed <= r.handed && q.discarded <= r.discarded
  }

  /** Only a success acknowledges, and just the item of its call. */
  lemma StepAcknowledges(b: Binding, e: Event)
    requires Possible(b, e)
    ensures var q, r := b.queue, Step(b, e).queue;
      && Grows(q, r)
      && r.acked == if e.CalledBack? && !e.failed && q.handed[e.k].item in q.pending
                    then q.acked + [q.handed[e.k].item] else q.acked
  {
    hide HasTopic, Failures, AddJoins;
    if e.Connected? {
      AddJoinsKeepsRest(b.queue, b.joinEvents);
    }
  }

  lemma {:induction false} AcknowledgedIffConfirmed(events: seq<Event>)
    requires IsRun(events)
    ensures AcksAreConfirmed(After(events).binding.queue, events)
  {
    if events != [] {
      var before, e := events[..|events| - 1], events[|events| - 1];
      AcknowledgedIffConfirmed(before);
      AlwaysInv(before);
      assert forall x :: x in events <==> x in before || x == e;
      StepAcknowledges(After(before).binding, e);
      assert After(events).binding == Step(After(before).binding, e);
      hide After, IsRun, Ledger, Step;
      OneMoreConfirmed(After(before).binding, before, events, e, After(events).binding.queue);
    }
  }

  /** A handed item that is no longer pending is acknowledged or discarded. */
  lemma HandedIsSomewhere(q: Queue, h: Handover)
    requires Ledger(q) && h in q.handed
    ensures h.item in q.pending || h.item in q.acked || h.item in q.discarded
  {
    hide Ordinary, WithCallback, Successes, DistinctIds;
    assert HandedInTurn(q, h);
    assert h.item in multiset(q.accepted);
  }

  lemma OneMoreConfirmed(b: Binding, before: seq<Event>, events: seq<Event>, e: Event, r: Queue)
    requires Inv(b) && AcksAreConfirmed(b.queue, before) && Possible(b, e)
    requires forall x :: x in events <==> x in before || x == e
    requires Grows(b.queue, r)
    requires r.acked == if e.CalledBack? && !e.failed && b.queue.handed[e.k].item in b.queue.pending
                        then b.queue.acked + [b.queue.handed[e.k].item] else b.queue.acked
    ensures AcksAreConfirmed(r, events)
  {
    hide Ledger, UnjoinIsLast;
    var q := b.queue;
    forall item | item in r.acked
      ensures IsConfirmed(events, r.handed, item)
    {
      if item in q.acked {
        var k :| 0 <= k < |q.handed| && q.handed[k].item == item && CalledBack(k, false) in before;
        assert r.handed[k] == q.handed[k];
      } else {
        assert r.handed[e.k] == q.handed[e.k];
      }
    }
    forall k | 0 <= k < |r.handed| && CalledBack(k, false) in events
      ensures r.handed[k].item in r.acked || r.handed[k].item in r.discarded
    {
      assert k < |q.handed| && r.handed[k] == q.handed[k];
      if CalledBack(k, false) !in before {
        HandedIsSomewhere(q, q.handed[k]);
      }
      assert forall i | 0 <= i < |q.discarded| :: r.discarded[i] == q.discarded[i];
    }
  }

  // ---------------------------------------------------------------- failures

  lemma {:induction false} FailuresMean(items: seq<Item>)
    ensures forall f <- Failures(items) :: f.1 && exists item <- items :: item.hasCallback && item.id == f.0
    ensures forall item <- items | item.hasCallback :: (item.id, true) in Failures(items)
    ensures |Failures(items)| == |WithCallback(items)|
  {
    if items != [] {
      var n := |items| - 1;
      FailuresMean(items[..n]);
      assert items == items[..n] + [items[n]];
      WithCallbackConcat(items[..n], [items[n]]);
    }
  }

  lemma {:induction false} AtMostOneCallback(items: seq<Item>)
    requires DistinctIds(items)
    requires forall i <- items, j <- items | i.hasCallback && j.hasCallback :: i == j
    ensures |WithCallback(items)| <= 1
  {
    if items != [] {
      AtMostOneCallback(items[1..]);
      if items[0].hasCallback {
        forall item | item in items[1..]
          ensures !item.hasCallback
        {
          var i :| 0 <= i < |items[1..]| && items[1..][i] == item;
          assert items[i + 1] == item && items[i + 1].id != items[0].id;
        }
        NoCallbacks(items[1..]);
      }
    }
  }

  lemma {:induction false} NoCallbacks(items: seq<Item>)
    requires forall item <- items :: !item.hasCallback
    ensures WithCallback(items) == []
  {
    if items != [] {
      NoCallbacks(items[1..]);
    }
  }

  lemma PendingIsAccepted(q: Queue)
    requires Counted(q)
    ensures DistinctIds(q.pending) && forall item <- q.pending :: item in q.accepted
  {
    forall item | item in q.pending
      ensures item in q.accepted
    {
      assert item in multiset(q.pending);
      assert item in multiset(q.accepted);
    }
    assert multiset(q.pending) <= multiset(q.accepted);
    IdsOnce(q.accepted, q.pending);
  }

  /**
   * A failure keeps all pending items, and it is reported once to the publisher of the unjoin
   * event if that is pending, and to nobody else.
   */
  lemma FailureTellsUnjoin(events: seq<Event>, k: nat)
    requires IsRun(events) && Possible(After(events).binding, CalledBack(k, true))
    ensures var q := After(events).binding.queue;
      var r := Step(After(events).binding, CalledBack(k, true)).queue;
      && r.pending == q.pending && r.handed == q.handed && r.acked == q.acked && !r.isDraining
      && q.fired <= r.fired && |r.fired[|q.fired|..]| <= 1
      && (forall f <- r.fired[|q.fired|..] :: f.1 && exists item <- q.pending :: item.hasCallback && item.id == f.0)
      && (forall item <- q.pending | item.hasCallback :: (item.id, true) in r.fired[|q.fired|..])
  {
    hide Failures, Ordinary;
    AlwaysInv(events);
    var q := After(events).binding.queue;
    FailuresMean(q.pending);
    PendingIsAccepted(q);
    AtMostOneCallback(q.pending);
    assert (q.fired + Failures(q.pending))[|q.fired|..] == Failures(q.pending);
  }

  // ---------------------------------------------------------------- publications rest while offline

  /** Neither connects nor answers of the client. */
  predicate IsQuiet(e: Event) {
    !e.Connected? && !e.CalledBack?
  }

  lemma QuietStep(b: Binding, e: Event)
    requires Possible(b, e) && IsQuiet(e) && (b.queue.isDraining || !b.queue.hasClient) && !b.phase.Initialized?
    ensures var c := Step(b, e);
      c.queue.handed == b.queue.handed && (c.queue.isDraining || !c.queue.hasClient) && !c.phase.Initialized?
  {
    hide HasTopic;
  }

  /** After a disconnect, nothing is handed to the client until it connects again or answers an earlier call. */
  lemma {:induction false} NothingHandedOffline(events: seq<Event>, more: seq<Event>)
    requires IsRun(events + [Disconnected] + more) && forall e <- more :: IsQuiet(e)
    ensures IsRun(events)
    ensures var b := After(events + [Disconnected] + more).binding;
      && b.queue.handed == After(events).binding.queue.handed
      && (b.queue.isDraining || !b.queue.hasClient) && !b.phase.Initialized?
  {
    var all := events + [Disconnected] + more;
    if more == [] {
      assert all[..|all| - 1] == events;
      StateFromEvents(events);
    } else {
      var n := |more| - 1;
      assert all[..|all| - 1] == events + [Disconnected] + more[..n];
      NothingHandedOffline(events, more[..n]);
      QuietStep(After(all[..|all| - 1]).binding, more[n]);
    }
  }
}

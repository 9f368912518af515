/**
 * The publication side of the MQTT binding: a queue of deferred publications, drained one
 * by one through asynchronous publish callbacks that may interleave with connects,
 * disconnects, new publications, and callbacks left over from earlier connections.
 */
module MqttPublications {
  import opened Prelude

  /** A queued publication; `id` is the object identity, `hasCallback` marks the unjoin event. */
  datatype Item = Item(id: nat, topic: string, isJoin: bool, hasCallback: bool)

  /** A call of the client's publish operation, with the number of items acknowledged before it. */
  datatype Handover = Handover(item: Item, acked: nat)

  /** The fields of the binding together with what its environment has observed so far. */
  datatype Queue = Queue(
    pending: seq<Item>,
    isDraining: bool,
    hasClient: bool,
    nextId: nat,
    accepted: seq<Item>,        // all items ever queued
    handed: seq<Handover>,      // all calls of the client's publish operation
    outstanding: set<nat>,      // the calls whose callback is still to come
    acked: seq<Item>,           // the items removed by a successful callback
    discarded: seq<Item>,       // the items dropped by a reset
    fired: seq<(nat, bool)>)    // item callbacks invoked: item id and whether publishing failed

  const EMPTY := Queue([], false, false, 0, [], [], {}, [], [], [])

  // ---------------------------------------------------------------- operations

  predicate HasTopic(items: seq<Item>, topic: string) {
    exists i <- items :: i.topic == topic
  }

  /** Queues an item; a topic of `None` stands for an event that cannot be composed. */
  function Add(q: Queue, topic: Option<string>, isJoin: bool, hasCallback: bool, shouldAddFirst: bool, once: bool)
    : Queue
  {
    var q1 := q.(nextId := q.nextId + 1);
    if topic.None? || (once && HasTopic(q.pending, topic.value)) then
      if hasCallback then q1.(fired := q.fired + [(q.nextId, true)]) else q1
    else
      var item := Item(q.nextId, topic.value, isJoin, hasCallback);
      q1.(pending := if shouldAddFirst then [item] + q.pending else q.pending + [item],
          accepted := q.accepted + [item])
  }

  function DoDrain(q: Queue): Queue {
    if !q.hasClient || q.pending == [] then q.(isDraining := false)
    else q.(handed := q.handed + [Handover(q.pending[0], |q.acked|)], outstanding := q.outstanding + {|q.handed|})
  }

  function Drain(q: Queue): Queue {
    if q.isDraining then q else DoDrain(q.(isDraining := true))
  }

  function Publish(q: Queue, topic: Option<string>): Queue {
    Drain(Add(q, topic, false, false, false, false))
  }

  /** Queues the join events from the last to the first at the front, each only if its topic is not pending. */
  function AddJoins(q: Queue, joins: seq<Option<string>>): Queue {
    if joins == [] then q else Add(AddJoins(q, joins[1..]), joins[0], true, false, true, true)
  }

  function Connect(q: Queue, joins: seq<Option<string>>): Queue {
    Drain(AddJoins(q, joins).(isDraining := false))
  }

  /** The connection is closed or goes offline. */
  function Disconnect(q: Queue): Queue {
    q.(isDraining := true)
  }

  /** The failure callbacks of all pending items, in order. */
  function Failures(items: seq<Item>): seq<(nat, bool)> {
    if items == [] then []
    else Failures(items[..|items| - 1]) + if items[|items| - 1].hasCallback then [(items[|items| - 1].id, true)] else []
  }

  /** The position of an item in a list, or -1. */
  function ItemIndex(items: seq<Item>, item: Item): (i: int)
    ensures -1 <= i < |items|
    ensures i == -1 <==> item !in items
    ensures i >= 0 ==> items[i] == item
  {
    if items == [] then -1
    else if items[0] == item then 0
    else var i := ItemIndex(items[1..], item); if i == -1 then -1 else i + 1
  }

  /** The callback of call `k` of the client's publish operation. */
  function Callback(q: Queue, k: nat, failed: bool): Queue
    requires k < |q.handed|
  {
    var q1 := q.(outstanding := q.outstanding - {k});
    if failed then q1.(isDraining := false, fired := q.fired + Failures(q.pending))
    else DoDrain(Acknowledge(q1, q.handed[k].item))
  }

  /** Removes a published item, unless an earlier callback has done so already. */
  function Acknowledge(q: Queue, item: Item): Queue {
    var i := ItemIndex(q.pending, item);
    if i == -1 then q
    else q.(pending := RemoveAt(q.pending, i),
            acked := q.acked + [item],
            fired := q.fired + if item.hasCallback then [(item.id, false)] else [])
  }

  function Unjoin(q: Queue, topic: Option<string>): Queue {
    if !q.hasClient then Reset(q) else Drain(Add(q, topic, false, true, false, false))
  }

  function Reset(q: Queue): Queue {
    q.(hasClient := false, isDraining := false, pending := [], discarded := q.discarded + q.pending)
  }

  // ---------------------------------------------------------------- the binding

  datatype Phase = Initialized | Joined | Unjoined

  datatype Binding = Binding(phase: Phase, joinEvents: seq<Option<string>>, unjoinEvent: Option<string>, queue: Queue)

  const INITIAL := Binding(Initialized, [], None, EMPTY)

  /** What can happen to the publication side of a binding; `Ended` follows the callback of the unjoin event. */
  datatype Event =
    | Join(joinEvents: seq<Option<string>>, unjoinEvent: Option<string>)
    | Published(topic: Option<string>)
    | Connected
    | Disconnected
    | CalledBack(k: nat, failed: bool)
    | Unjoined
    | Ended

  /** Client events stem from a client; every publish call is called back at most once. */
  predicate Possible(b: Binding, e: Event) {
    match e
    case Connected => b.queue.hasClient
    case Disconnected => b.queue.hasClient
    case CalledBack(k, _) => k in b.queue.outstanding && k < |b.queue.handed|
    case Ended => b.queue.hasClient && b.phase.Unjoined? && b.queue.fired != []
    case _ => true
  }

  function Step(b: Binding, e: Event): Binding
    requires Possible(b, e)
  {
    match e
    case Join(joins, unjoin) =>
      if b.phase.Initialized? then Binding(Phase.Joined, joins, unjoin, b.queue.(hasClient := true)) else b
    case Published(topic) => if b.phase.Unjoined? then b else b.(queue := Publish(b.queue, topic))
    case Connected => b.(queue := Connect(b.queue, b.joinEvents))
    case Disconnected => b.(queue := Disconnect(b.queue))
    case CalledBack(k, failed) => b.(queue := Callback(b.queue, k, failed))
    case Unjoined =>
      if b.phase.Unjoined? then b else b.(phase := Phase.Unjoined, queue := Unjoin(b.queue, b.unjoinEvent))
    case Ended => b.(queue := Reset(b.queue))
  }

  class MqttPublications {
    var phase: Phase
    var joinEvents: seq<Option<string>>
    var unjoinEvent: Option<string>
    var pending: seq<Item>
    var isDraining: bool
    var hasClient: bool
    var nextId: nat
    // observed by the environment
    var accepted: seq<Item>
    var handed: seq<Handover>
    var outstanding: set<nat>
    var acked: seq<Item>
    var discarded: seq<Item>
    var fired: seq<(nat, bool)>

    ghost function Contents(): Queue
      reads this
    {
      Queue(pending, isDraining, hasClient, nextId, accepted, handed, outstanding, acked, discarded, fired)
    }

    ghost function State(): Binding
      reads this
    {
      Binding(phase, joinEvents, unjoinEvent, Contents())
    }

    constructor ()
      ensures State() == INITIAL
    {
      phase, joinEvents, unjoinEvent := Phase.Initialized, [], None;
      pending, isDraining, hasClient, nextId := [], false, false, 0;
      accepted, handed, outstanding, acked, discarded, fired := [], [], {}, [], [], [];
    }

    method OnJoin(joins: seq<Option<string>>, unjoin: Option<string>)
      modifies this
      ensures State() == Step(old(State()), Join(joins, unjoin))
    {
      if !phase.Initialized? {
        return;
      }
      phase := Phase.Joined;
      joinEvents, unjoinEvent := joins, unjoin;
      hasClient := true;
    }

    method OnPublish(topic: Option<string>)
      modifies this
      ensures State() == Step(old(State()), Published(topic))
    {
      if phase.Unjoined? {
        return;
      }
      AddPublicationItem(topic, false, false, false, false);
      DrainPublications();
    }

    method OnConnect()
      requires hasClient
      modifies this
      ensures State() == Step(old(State()), Connected)
    {
      var i := |joinEvents| - 1;
      while i >= 0
        invariant -1 <= i < |joinEvents|
        invariant State() == old(State()).(queue := AddJoins(old(Contents()), joinEvents[i + 1..]))
      {
        assert joinEvents[i..][1..] == joinEvents[i + 1..];
        AddPublicationItem(joinEvents[i], true, false, true, true);
        i := i - 1;
      }
      assert joinEvents[0..] == joinEvents;
      isDraining := false;
      DrainPublications();
    }

    /** Handles both the close and the offline event of the client. */
    method OnDisconnect()
      requires hasClient
      modifies this`isDraining
      ensures State() == Step(old(State()), Disconnected)
    {
      isDraining := true;
    }

    method OnPublishCallback(k: nat, failed: bool)
      requires k in outstanding && k < |handed|
      modifies this
      ensures State() == Step(old(State()), CalledBack(k, failed))
    {
      outstanding := outstanding - {k};
      if failed {
        isDraining := false;
        NotifyFailure();
      } else {
        AcknowledgeItem(handed[k].item);
        DoDrainPublications();
      }
    }

    method NotifyFailure()
      modifies this`fired
      ensures fired == old(fired) + Failures(pending)
    {
      for i := 0 to |pending|
        invariant fired == old(fired) + Failures(pending[..i])
      {
        assert pending[..i + 1][..i] == pending[..i];
        if pending[i].hasCallback {
          fired := fired + [(pending[i].id, true)];
        }
      }
      assert pending[..|pending|] == pending;
    }

    method AcknowledgeItem(item: Item)
      modifies this`pending, this`acked, this`fired
      ensures State() == old(State()).(queue := Acknowledge(old(Contents()), item))
    {
      var index := ItemIndex(pending, item);
      if index != -1 {
        pending := RemoveAt(pending, index);
        acked := acked + [item];
        if item.hasCallback {
          fired := fired + [(item.id, false)];
        }
      }
    }

    method OnUnjoin()
      modifies this
      ensures State() == Step(old(State()), Event.Unjoined)
    {
      if phase.Unjoined? {
        return;
      }
      phase := Phase.Unjoined;
      if !hasClient {
        ResetAll();
        return;
      }
      AddPublicationItem(unjoinEvent, false, true, false, false);
      DrainPublications();
    }

    /** Also runs once the client has ended after the unjoin event. */
    method ResetAll()
      modifies this
      ensures State() == old(State()).(queue := Reset(old(Contents())))
    {
      discarded := discarded + pending;
      hasClient, isDraining, pending := false, false, [];
    }

    method AddPublicationItem(topic: Option<string>, isJoin: bool, hasCallback: bool, shouldAddFirst: bool, once: bool)
      modifies this
      ensures State() ==
              old(State()).(queue := Add(old(Contents()), topic, isJoin, hasCallback, shouldAddFirst, once))
    {
      var id := nextId;
      nextId := nextId + 1;
      if topic.None? {
        if hasCallback {
          fired := fired + [(id, true)];
        }
        return;
      }
      if once && HasTopic(pending, topic.value) {
        if hasCallback {
          fired := fired + [(id, true)];
        }
        return;
      }
      var item := Item(id, topic.value, isJoin, hasCallback);
      if shouldAddFirst {
        pending := [item] + pending;
      } else {
        pending := pending + [item];
      }
      accepted := accepted + [item];
    }

    method DrainPublications()
      modifies this
      ensures State() == old(State()).(queue := Drain(old(Contents())))
    {
      if isDraining {
        return;
      }
      isDraining := true;
      DoDrainPublications();
    }

    method DoDrainPublications()
      modifies this
      ensures State() == old(State()).(queue := DoDrain(old(Contents())))
    {
      if !hasClient || |pending| == 0 {
        isDraining := false;
        return;
      }
      outstanding := outstanding + {|handed|};
      handed := handed + [Handover(pending[0], |acked|)];
    }
  }
}

/**
 * What holds after every sequence of publications, connects, disconnects and publish
 * callbacks, in whatever order they interleave.
 */
module MqttPublicationRuns {
  import opened Prelude
  import opened MqttPublications

  /** A binding, whether it is connected, and whether draining has stopped on a failure and not been restarted. */
  datatype Link = Link(binding: Binding, online: bool, failed: bool)

  function Follow(l: Link, e: Event): Link
    requires Possible(l.binding, e)
  {
    Link(Step(l.binding, e),
         if e.Connected? then true else if e.Disconnected? || e.Ended? then false else l.online,
         if Restarts(l.binding, e) then false else l.failed || (e.CalledBack? && e.failed))
  }

  /** Connecting, publishing and unjoining start draining again after a failure. */
  predicate Restarts(b: Binding, e: Event) {
    e.Connected? || (!b.phase.Unjoined? && (e.Published? || e.Unjoined?))
  }

  predicate IsRun(events: seq<Event>)
    decreases |events|, 0
  {
    events == [] ||
    (IsRun(events[..|events| - 1]) && Possible(After(events[..|events| - 1]).binding, events[|events| - 1]))
  }

  function After(events: seq<Event>): Link
    requires IsRun(events)
    decreases |events|, 1
  {
    if events == [] then Link(INITIAL, false, false)
    else Follow(After(events[..|events| - 1]), events[|events| - 1])
  }

  // ---------------------------------------------------------------- ordinary items and callbacks

  /** The items that are not join events, in their order. */
  function Ordinary(items: seq<Item>): seq<Item>
  {
    if items == [] then [] else (if items[0].isJoin then [] else [items[0]]) + Ordinary(items[1..])
  }

  /** The ids of the items whose callback reported success, in order. */
  function Successes(fired: seq<(nat, bool)>): seq<nat>
  {
    if fired == [] then [] else (if fired[0].1 then [] else [fired[0].0]) + Successes(fired[1..])
  }

  /** The ids of the items that have a callback, in order. */
  function WithCallback(items: seq<Item>): seq<nat> {
    if items == [] then [] else (if items[0].hasCallback then [items[0].id] else []) + WithCallback(items[1..])
  }

  predicate DistinctIds(items: seq<Item>) {
    forall i, j :: 0 <= i < j < |items| ==> items[i].id != items[j].id
  }

  lemma OrdinaryFirst(items: seq<Item>)
    requires items != []
    ensures Ordinary(items) == (if items[0].isJoin then [] else [items[0]]) + Ordinary(items[1..])
  {
  }

  lemma {:induction false} OrdinaryConcat(a: seq<Item>, b: seq<Item>)
    ensures Ordinary(a + b) == Ordinary(a) + Ordinary(b)
  {
    if a == [] {
      assert a + b == b;
    } else {
      hide Ordinary;
      OrdinaryConcat(a[1..], b);
      DropFirst(a, b);
      OrdinaryFirst(a);
      OrdinaryFirst(a + b);
      Associative(if a[0].isJoin then [] else [a[0]], Ordinary(a[1..]), Ordinary(b));
    }
  }

  lemma SuccessesFirst(fired: seq<(nat, bool)>)
    requires fired != []
    ensures Successes(fired) == (if fired[0].1 then [] else [fired[0].0]) + Successes(fired[1..])
  {
  }

  lemma {:induction false} SuccessesConcat(a: seq<(nat, bool)>, b: seq<(nat, bool)>)
    ensures Successes(a + b) == Successes(a) + Successes(b)
  {
    if a == [] {
      assert a + b == b;
    } else {
      hide Successes;
      SuccessesConcat(a[1..], b);
      DropFirst(a, b);
      SuccessesFirst(a);
      SuccessesFirst(a + b);
      Associative(if a[0].1 then [] else [a[0].0], Successes(a[1..]), Successes(b));
    }
  }

  lemma WithCallbackFirst(items: seq<Item>)
    requires items != []
    ensures WithCallback(items) == (if items[0].hasCallback then [items[0].id] else []) + WithCallback(items[1..])
  {
  }

  lemma {:induction false} WithCallbackConcat(a: seq<Item>, b: seq<Item>)
    ensures WithCallback(a + b) == WithCallback(a) + WithCallback(b)
  {
    if a == [] {
      assert a + b == b;
    } else {
      hide WithCallback;
      WithCallbackConcat(a[1..], b);
      DropFirst(a, b);
      WithCallbackFirst(a);
      WithCallbackFirst(a + b);
      Associative(if a[0].hasCallback then [a[0].id] else [], WithCallback(a[1..]), WithCallback(b));
    }
  }

  lemma {:induction false} FailuresAreNoSuccesses(items: seq<Item>)
    ensures Successes(Failures(items)) == []
  {
    if items != [] {
      var n := |items| - 1;
      FailuresAreNoSuccesses(items[..n]);
      SuccessesConcat(Failures(items[..n]), if items[n].hasCallback then [(items[n].id, true)] else []);
    }
  }

  lemma {:induction false} OrdinaryMembers(items: seq<Item>, item: Item)
    ensures item in Ordinary(items) <==> item in items && !item.isJoin
  {
    if items != [] {
      OrdinaryMembers(items[1..], item);
    }
  }

  lemma {:induction false} OrdinaryDistinct(items: seq<Item>)
    requires DistinctIds(items)
    ensures DistinctIds(Ordinary(items))
  {
    if items != [] {
      OrdinaryDistinct(items[1..]);
      var rest := Ordinary(items[1..]);
      forall k | 0 <= k < |rest|
        ensures rest[k].id != items[0].id
      {
        OrdinaryMembers(items[1..], rest[k]);
      }
    }
  }

  lemma {:induction false} OneOfEach(items: seq<Item>)
    requires DistinctIds(items)
    ensures forall i :: multiset(items)[i] <= 1
  {
    if items != [] {
      OneOfEach(items[1..]);
      assert items == [items[0]] + items[1..];
    }
  }

  // ---------------------------------------------------------------- the ledger of all items

  /** An ordinary item is handed to the client when exactly the ordinary items before it are acknowledged. */
  predicate HandedInTurn(q: Queue, h: Handover) {
    && h.acked <= |q.acked|
    && h.item in q.accepted
    && (!h.item.isJoin ==> Ordinary(q.acked[..h.acked]) + [h.item] <= Ordinary(q.accepted))
  }

  /** Every item ever queued is pending, acknowledged or discarded, and in one place only. */
  ghost predicate Counted(q: Queue) {
    && DistinctIds(q.accepted)
    && (forall i <- q.accepted :: i.id < q.nextId)
    && multiset(q.accepted) == multiset(q.pending) + multiset(q.acked) + multiset(q.discarded)
  }

  /** Ordinary items leave in the order they came, and none overtakes another. */
  ghost predicate Ordered(q: Queue) {
    && Ordinary(q.accepted) == Ordinary(q.acked) + Ordinary(q.pending) + Ordinary(q.discarded)
    && (forall h <- q.handed :: HandedInTurn(q, h))
  }

  ghost predicate Ledger(q: Queue) {
    Counted(q) && Ordered(q) && Successes(q.fired) == WithCallback(q.acked)
  }

  /** A list that grows at its end by one item grows in its parts accordingly. */
  lemma Appended(items: seq<Item>, item: Item)
    ensures Ordinary(items + [item]) == Ordinary(items) + Ordinary([item])
    ensures Ordinary([item] + items) == Ordinary([item]) + Ordinary(items)
    ensures Ordinary([item]) == if item.isJoin then [] else [item]
    ensures WithCallback(items + [item]) == WithCallback(items) + if item.hasCallback then [item.id] else []
  {
    OrdinaryConcat(items, [item]);
    OrdinaryConcat([item], items);
    WithCallbackConcat(items, [item]);
  }

  lemma FiredOnce(fired: seq<(nat, bool)>, id: nat, failed: bool)
    ensures Successes(fired + [(id, failed)]) == Successes(fired) + if failed then [] else [id]
  {
    SuccessesConcat(fired, [(id, failed)]);
  }

  /** Handovers stay in turn while items are only appended to what was accepted and acknowledged. */
  lemma StaysInTurn(q: Queue, r: Queue)
    requires forall h <- q.handed :: HandedInTurn(q, h)
    requires q.acked <= r.acked && q.accepted <= r.accepted && Ordinary(q.accepted) <= Ordinary(r.accepted)
    ensures forall h <- q.handed :: HandedInTurn(r, h)
  {
    hide Ordinary;
    forall h | h in q.handed
      ensures HandedInTurn(r, h)
    {
      assert HandedInTurn(q, h);
      assert r.acked[..h.acked] == q.acked[..h.acked];
    }
  }

  lemma AddKeepsLedger(q: Queue, topic: Option<string>, isJoin: bool, hasCallback: bool, first: bool, once: bool)
    requires Ledger(q) && q.discarded == [] && isJoin == first
    ensures Ledger(Add(q, topic, isJoin, hasCallback, first, once))
  {
    hide HasTopic, Ordinary, WithCallback, Successes, HandedInTurn, Counted;
    var r := Add(q, topic, isJoin, hasCallback, first, once);
    if r.accepted == q.accepted {
      FiredOnce(q.fired, q.nextId, true);
    } else {
      var item := Item(q.nextId, topic.value, isJoin, hasCallback);
      Appended(q.accepted, item);
      Appended(q.pending, item);
      OrdinaryNone();
    }
    StaysInTurn(q, r);
    AddKeepsCount(q, topic, isJoin, hasCallback, first, once);
  }

  lemma AddKeepsCount(q: Queue, topic: Option<string>, isJoin: bool, hasCallback: bool, first: bool, once: bool)
    requires Counted(q)
    ensures Counted(Add(q, topic, isJoin, hasCallback, first, once))
  {
    hide HasTopic;
  }

  lemma OrdinaryNone()
    ensures Ordinary([]) == []
  {
  }

  lemma DoDrainKeepsLedger(q: Queue)
    requires Ledger(q) && (q.hasClient ==> q.discarded == [])
    ensures Ledger(DoDrain(q))
  {
    var r := DoDrain(q);
    if q.hasClient && q.pending != [] {
      var item := q.pending[0];
      assert q.acked[..|q.acked|] == q.acked;
      assert q.pending == [item] + q.pending[1..];
      OrdinaryConcat([item], q.pending[1..]);
      assert item in multiset(q.pending);
      assert item in multiset(q.accepted);
      forall h | h in r.handed
        ensures HandedInTurn(r, h)
      {
        if h in q.handed {
          assert HandedInTurn(q, h);
        }
      }
    }
  }

  lemma SamePlace(all: seq<Item>, early: seq<Item>, a: seq<Item>, p: seq<Item>, item: Item, rest: seq<Item>)
    requires DistinctIds(all) && all == a + p + [item] + rest
    requires early + [item] <= all && |early| <= |a|
    ensures p == []
  {
    assert (early + [item])[|early|] == item;
    assert all[|a| + |p|] == item;
  }

  /** An ordinary item that is pending and was handed over is the first pending ordinary item. */
  lemma HandedIsFirst(q: Queue, h: Handover, i: nat)
    requires Ledger(q) && h in q.handed && !h.item.isJoin
    requires i < |q.pending| && q.pending[i] == h.item
    ensures Ordinary(q.pending[..i]) == []
  {
    hide Ordinary, WithCallback, Successes, DistinctIds;
    assert HandedInTurn(q, h);
    var early, late := q.acked[..h.acked], q.acked[h.acked..];
    var before, after := q.pending[..i], q.pending[i + 1..];
    assert q.acked == early + late;
    OrdinaryConcat(early, late);
    assert q.pending == before + [h.item] + after;
    OrdinaryConcat(before + [h.item], after);
    Appended(before, h.item);
    OrdinaryDistinct(q.accepted);
    SamePlace(Ordinary(q.accepted), Ordinary(early), Ordinary(q.acked), Ordinary(before), h.item,
              Ordinary(after) + Ordinary(q.discarded));
  }

  lemma AcknowledgeKeepsLedger(q: Queue, h: Handover)
    requires Ledger(q) && h in q.handed
    ensures Ledger(Acknowledge(q, h.item))
  {
    hide Ordinary, WithCallback, Successes, HandedInTurn, Counted;
    var i := ItemIndex(q.pending, h.item);
    if i != -1 {
      var item, r := h.item, Acknowledge(q, h.item);
      var before, after := q.pending[..i], q.pending[i + 1..];
      assert q.pending == before + [item] + after;
      OrdinaryConcat(before + [item], after);
      OrdinaryConcat(before, after);
      Appended(before, item);
      Appended(q.acked, item);
      if item.hasCallback {
        FiredOnce(q.fired, item.id, false);
      } else {
        assert q.fired + [] == q.fired;
      }
      if !item.isJoin {
        HandedIsFirst(q, h, i);
      }
      StaysInTurn(q, r);
      AcknowledgeKeepsCount(q, item);
    }
  }

  lemma AcknowledgeKeepsCount(q: Queue, item: Item)
    requires Counted(q)
    ensures Counted(Acknowledge(q, item))
  {
    var i := ItemIndex(q.pending, item);
    if i != -1 {
      assert q.pending == q.pending[..i] + [item] + q.pending[i + 1..];
    }
  }

  lemma ResetKeepsLedger(q: Queue)
    requires Ledger(q) && (q.discarded == [] || q.pending == [])
    ensures Ledger(Reset(q))
  {
    hide WithCallback, Successes, HandedInTurn, DistinctIds;
    var r := Reset(q);
    assert q.discarded + q.pending == if q.discarded == [] then q.pending else q.discarded;
    StaysInTurn(q, r);
  }

  // ---------------------------------------------------------------- every run

  /** The unjoin event, which alone has a callback, is the last ordinary item ever queued. */
  ghost predicate UnjoinIsLast(b: Binding) {
    var all := Ordinary(b.queue.accepted);
    forall item <- b.queue.accepted | item.hasCallback ::
      b.phase.Unjoined? && all != [] && item == all[|all| - 1]
  }

  ghost predicate Inv(b: Binding) {
    && Ledger(b.queue)
    && (b.queue.discarded != [] ==> b.phase.Unjoined? && !b.queue.hasClient && b.queue.pending == [])
    && UnjoinIsLast(b)
  }

  lemma {:induction false} AddJoinsKeepsLedger(q: Queue, joins: seq<Option<string>>)
    requires Ledger(q) && q.discarded == []
    ensures var r := AddJoins(q, joins);
      && Ledger(r) && r == q.(pending := r.pending, accepted := r.accepted, nextId := r.nextId)
      && Ordinary(r.accepted) == Ordinary(q.accepted) && Ordinary(r.pending) == Ordinary(q.pending)
      && forall item <- r.accepted :: item in q.accepted || !item.hasCallback
  {
    hide Ledger, HasTopic, Ordinary;
    if joins != [] {
      var r := AddJoins(q, joins[1..]);
      AddJoinsKeepsLedger(q, joins[1..]);
      AddKeepsLedger(r, joins[0], true, false, true, true);
      if joins[0].Some? {
        var item := Item(r.nextId, joins[0].value, true, false);
        Appended(r.accepted, item);
        Appended(r.pending, item);
      }
    }
  }

  /** The ledger does not depend on the connection and on what is outstanding. */
  lemma LedgerIgnores(q: Queue, r: Queue)
    requires Ledger(q) && r == q.(isDraining := r.isDraining, hasClient := r.hasClient, outstanding := r.outstanding)
    ensures Ledger(r)
  {
    hide Ordinary, Successes, WithCallback, DistinctIds, HandedInTurn;
    StaysInTurn(q, r);
  }

  lemma DrainKeepsInv(b: Binding)
    requires Inv(b) && (b.queue.hasClient ==> b.queue.discarded == [])
    ensures Inv(b.(queue := DoDrain(b.queue))) && Inv(b.(queue := Drain(b.queue)))
    ensures Inv(b.(queue := b.queue.(isDraining := false))) && Inv(b.(queue := b.queue.(isDraining := true)))
  {
    hide Ordinary, Ledger;
    var q := b.queue.(isDraining := true);
    LedgerIgnores(b.queue, q);
    LedgerIgnores(b.queue, b.queue.(isDraining := false));
    DoDrainKeepsLedger(b.queue);
    DoDrainKeepsLedger(q);
  }

  lemma AddKeepsInv(b: Binding, topic: Option<string>)
    requires Inv(b) && !b.phase.Unjoined?
    ensures Inv(b.(queue := Add(b.queue, topic, false, false, false, false)))
    ensures Inv(b.(phase := Phase.Unjoined, queue := Add(b.queue, topic, false, true, false, false)))
  {
    hide Ledger, Ordinary;
    AddKeepsLedger(b.queue, topic, false, false, false, false);
    AddKeepsLedger(b.queue, topic, false, true, false, false);
    if topic.Some? {
      Appended(b.queue.accepted, Item(b.queue.nextId, topic.value, false, true));
    }
  }

  lemma FailureKeepsLedger(q: Queue)
    requires Ledger(q)
    ensures Ledger(q.(fired := q.fired + Failures(q.pending)))
  {
    hide Ordinary, Successes, WithCallback, HandedInTurn, Failures, Counted;
    SuccessesConcat(q.fired, Failures(q.pending));
    FailuresAreNoSuccesses(q.pending);
    StaysInTurn(q, q.(fired := q.fired + Failures(q.pending)));
    CountIgnoresFired(q);
  }

  lemma CountIgnoresFired(q: Queue)
    requires Counted(q)
    ensures Counted(q.(fired := q.fired + Failures(q.pending)))
  {
  }

  lemma CallbackKeepsInv(b: Binding, k: nat, failed: bool)
    requires Inv(b) && k < |b.queue.handed|
    ensures Inv(b.(queue := Callback(b.queue, k, failed)))
  {
    hide Ordinary, Ledger, Failures, ItemIndex;
    var q := b.queue.(outstanding := b.queue.outstanding - {k});
    LedgerIgnores(b.queue, q);
    if failed {
      LedgerIgnores(b.queue, q.(isDraining := false));
      FailureKeepsLedger(q.(isDraining := false));
    } else {
      AcknowledgeKeepsLedger(q, q.handed[k]);
      DrainKeepsInv(b.(queue := Acknowledge(q, q.handed[k].item)));
    }
  }

  lemma ResetKeepsInv(b: Binding)
    requires Inv(b) && b.queue.discarded == []
    ensures Inv(Binding(Phase.Unjoined, b.joinEvents, b.unjoinEvent, Reset(b.queue)))
  {
    hide Ledger;
    ResetKeepsLedger(b.queue);
  }

  lemma StepKeepsInv(b: Binding, e: Event)
    requires Inv(b) && Possible(b, e)
    ensures Inv(Step(b, e))
  {
    hide Ordinary, Ledger, Add, Drain, DoDrain, Callback, Reset, AddJoins;
    match e
    case Join(_, _) =>
      LedgerIgnores(b.queue, b.queue.(hasClient := true));
    case Published(topic) =>
      if !b.phase.Unjoined? {
        AddKeepsInv(b, topic);
        DrainKeepsInv(b.(queue := Add(b.queue, topic, false, false, false, false)));
      }
    case Connected =>
      AddJoinsKeepsLedger(b.queue, b.joinEvents);
      var c := b.(queue := AddJoins(b.queue, b.joinEvents));
      DrainKeepsInv(c);
      DrainKeepsInv(c.(queue := c.queue.(isDraining := false)));
    case Disconnected =>
      DrainKeepsInv(b);
    case CalledBack(k, failed) =>
      CallbackKeepsInv(b, k, failed);
    case Unjoined =>
      if !b.phase.Unjoined? {
        AddKeepsInv(b, b.unjoinEvent);
        ResetKeepsInv(b);
        if b.queue.hasClient {
          AddHasClient(b.queue, b.unjoinEvent);
          DrainKeepsInv(b.(phase := Phase.Unjoined, queue := Add(b.queue, b.unjoinEvent, false, true, false, false)));
        }
      }
    case Ended =>
      ResetKeepsInv(b);
  }

  lemma AddHasClient(q: Queue, topic: Option<string>)
    ensures Add(q, topic, false, true, false, false).discarded == q.discarded
  {
  }

  lemma {:induction false} AlwaysInv(events: seq<Event>)
    requires IsRun(events)
    ensures Inv(After(events).binding)
  {
    if events != [] {
      AlwaysInv(events[..|events| - 1]);
      StepKeepsInv(After(events[..|events| - 1]).binding, events[|events| - 1]);
    }
  }

  /** No publication is lost or duplicated: each item ever queued is in exactly one place. */
  lemma NothingIsLost(events: seq<Event>)
    requires IsRun(events)
    ensures var q := After(events).binding.queue;
      && DistinctIds(q.accepted)
      && multiset(q.accepted) == multiset(q.pending) + multiset(q.acked) + multiset(q.discarded)
      && (q.discarded != [] ==> q.pending == [] && After(events).binding.phase.Unjoined?)
  {
    AlwaysInv(events);
  }

  /** Callbacks report success exactly for the acknowledged items, and once for each. */
  lemma SuccessIsReportedOnce(events: seq<Event>)
    requires IsRun(events)
    ensures var q := After(events).binding.queue;
      && Successes(q.fired) == WithCallback(q.acked)
      && (forall i, j :: 0 <= i < j < |q.fired| && !q.fired[i].1 && !q.fired[j].1 ==> q.fired[i].0 != q.fired[j].0)
  {
    AlwaysInv(events);
    var q := After(events).binding.queue;
    OneOfEach(q.accepted);
    assert multiset(q.acked) <= multiset(q.accepted);
    IdsOnce(q.accepted, q.acked);
    WithCallbackOnce(q.acked);
    FiredAreDistinct(q.fired);
  }

  lemma {:induction false} IdsOnce(all: seq<Item>, some: seq<Item>)
    requires DistinctIds(all) && multiset(some) <= multiset(all)
    ensures DistinctIds(some)
  {
    OneOfEach(all);
    forall i, j | 0 <= i < j < |some|
      ensures some[i].id != some[j].id
    {
      if some[i] == some[j] {
        TwoOfOne(some, i, j);
      } else {
        assert some[i] in multiset(all) && some[j] in multiset(all);
        assert some[i] in all && some[j] in all;
      }
    }
  }

  lemma {:induction false} TwoOfOne(items: seq<Item>, i: nat, j: nat)
    requires i < j < |items| && items[i] == items[j]
    ensures multiset(items)[items[i]] >= 2
  {
    assert items == items[..j] + items[j..];
    assert items[i] in items[..j] && items[i] in items[j..];
    assert items[i] in multiset(items[..j]) && items[i] in multiset(items[j..]);
  }

  lemma {:induction false} WithCallbackOnce(items: seq<Item>)
    requires DistinctIds(items)
    ensures forall i, j :: 0 <= i < j < |WithCallback(items)| ==> WithCallback(items)[i] != WithCallback(items)[j]
    ensures forall id <- WithCallback(items) :: exists item <- items :: item.id == id
  {
    if items != [] {
      WithCallbackOnce(items[1..]);
      var rest := WithCallback(items[1..]);
      forall k | 0 <= k < |rest|
        ensures rest[k] != items[0].id
      {
        assert rest[k] in rest;
      }
    }
  }

  lemma {:induction false} FiredAreDistinct(fired: seq<(nat, bool)>)
    requires forall i, j :: 0 <= i < j < |Successes(fired)| ==> Successes(fired)[i] != Successes(fired)[j]
    ensures forall i, j :: 0 <= i < j < |fired| && !fired[i].1 && !fired[j].1 ==> fired[i].0 != fired[j].0
  {
    if fired != [] {
      var rest := Successes(fired[1..]);
      assert Successes(fired) == (if fired[0].1 then [] else [fired[0].0]) + rest;
      forall i, j | 0 <= i < j < |rest|
        ensures rest[i] != rest[j]
      {
        var n := if fired[0].1 then 0 else 1;
        assert Successes(fired)[i + n] == rest[i] && Successes(fired)[j + n] == rest[j];
      }
      FiredAreDistinct(fired[1..]);
      forall j | 0 < j < |fired| && !fired[0].1 && !fired[j].1
        ensures fired[0].0 != fired[j].0
      {
        assert fired[1..][j - 1] == fired[j];
        SuccessesMember(fired[1..], j - 1);
        var k :| 0 <= k < |rest| && rest[k] == fired[j].0;
        assert Successes(fired)[0] == fired[0].0 && Successes(fired)[k + 1] == rest[k];
      }
      forall i, j | 0 < i < j < |fired| && !fired[i].1 && !fired[j].1
        ensures fired[i].0 != fired[j].0
      {
        assert fired[1..][i - 1] == fired[i] && fired[1..][j - 1] == fired[j];
      }
    }
  }

  lemma {:induction false} SuccessesMember(fired: seq<(nat, bool)>, j: nat)
    requires j < |fired| && !fired[j].1
    ensures fired[j].0 in Successes(fired)
  {
    if j > 0 {
      SuccessesMember(fired[1..], j - 1);
    }
  }

  /**
   * An ordinary item is handed to the client only after all earlier ordinary items were
   * acknowledged, and right in its turn. The unjoin event goes out after all the others.
   */
  lemma OrdinaryItemsInOrder(events: seq<Event>, k: nat)
    requires IsRun(events) && k < |After(events).binding.queue.handed|
    ensures var q := After(events).binding.queue;
      var h := q.handed[k];
      && h.acked <= |q.acked| && h.item in q.accepted
      && (!h.item.isJoin ==> Ordinary(q.acked[..h.acked]) + [h.item] <= Ordinary(q.accepted))
      && (h.item.hasCallback ==> Ordinary(q.acked[..h.acked]) + [h.item] == Ordinary(q.accepted))
  {
    AlwaysInv(events);
    var q := After(events).binding.queue;
    var h := q.handed[k];
    assert HandedInTurn(q, h);
    if h.item.hasCallback {
      var all, early := Ordinary(q.accepted), Ordinary(q.acked[..h.acked]);
      OrdinaryMembers(q.accepted, all[|all| - 1]);
      OrdinaryDistinct(q.accepted);
      assert all[|early|] == (early + [h.item])[|early|];
      assert all[|all| - 1] == h.item;
    }
  }

  // ---------------------------------------------------------------- no lost wake-up

  /**
   * Whatever is pending while connected has a publish call under way, unless a call has failed
   * and nothing was published since; then draining may start anew.
   */
  predicate Wakeful(l: Link) {
    var q := l.binding.queue;
    && (l.online ==> q.hasClient)
    && (l.online && !l.failed ==> if q.isDraining then q.outstanding != {} else q.pending == [])
    && (l.online && l.failed ==> !q.isDraining)
  }

  lemma AddKeepsFlags(q: Queue, topic: Option<string>, isJoin: bool, hasCallback: bool, first: bool, once: bool)
    ensures var r := Add(q, topic, isJoin, hasCallback, first, once);
      && r.isDraining == q.isDraining && r.hasClient == q.hasClient && r.outstanding == q.outstanding
      && r.handed == q.handed
  {
    hide HasTopic;
  }

  /** Draining that starts goes on until the queue is empty. */
  lemma DrainWakes(q: Queue)
    requires q.hasClient && (q.isDraining ==> q.outstanding != {})
    ensures var r := Drain(q);
      r.hasClient && if r.isDraining then r.outstanding != {} else r.pending == []
  {
  }

  lemma FollowKeepsWakeful(l: Link, e: Event)
    requires Wakeful(l) && Possible(l.binding, e)
    ensures Wakeful(Follow(l, e))
  {
    hide HasTopic, Failures, AddJoins, Add, Drain, ItemIndex;
    var q := l.binding.queue;
    match e
    case Published(topic) =>
      AddKeepsFlags(q, topic, false, false, false, false);
      if l.online {
        DrainWakes(Add(q, topic, false, false, false, false));
      }
    case Unjoined =>
      AddKeepsFlags(q, l.binding.unjoinEvent, false, true, false, false);
      if l.online {
        DrainWakes(Add(q, l.binding.unjoinEvent, false, true, false, false));
      }
    case Connected =>
      AddJoinsKeepsClient(q, l.binding.joinEvents);
      DrainWakes(AddJoins(q, l.binding.joinEvents).(isDraining := false));
    case _ =>
  }

  lemma {:induction false} AddJoinsKeepsClient(q: Queue, joins: seq<Option<string>>)
    ensures AddJoins(q, joins).hasClient == q.hasClient
  {
    hide HasTopic;
    if joins != [] {
      AddJoinsKeepsClient(q, joins[1..]);
    }
  }

  lemma {:induction false} NoLostWakeup(events: seq<Event>)
    requires IsRun(events)
    ensures Wakeful(After(events))
    ensures var l := After(events);
      l.online && !l.failed && l.binding.queue.pending != [] ==> l.binding.queue.outstanding != {}
  {
    if events != [] {
      NoLostWakeup(events[..|events| - 1]);
      FollowKeepsWakeful(After(events[..|events| - 1]), events[|events| - 1]);
    }
  }

  // ---------------------------------------------------------------- join events come first

  function Composed(topics: seq<string>): seq<Option<string>> {
    if topics == [] then [] else [Some(topics[0])] + Composed(topics[1..])
  }

  /** The publish call is for an ordinary item, for one no longer pending, or for the first join event. */
  predicate MayBeLate(q: Queue, item: Item, joins: seq<string>) {
    !item.isJoin || item !in q.pending || (joins != [] && item.topic == joins[0])
  }

  /**
   * Join events with the given topics are joined with, and no other publication uses one of
   * them. When the client connects, no publish call is outstanding for a pending join event
   * other than the first one.
   */
  predicate Disciplined(b: Binding, e: Event, joins: seq<string>) {
    match e
    case Join(j, u) => b.phase.Initialized? ==> j == Composed(joins) && (u.Some? ==> u.value !in joins)
    case Published(topic) => topic.Some? ==> topic.value !in joins
    case Connected =>
      forall k <- b.queue.outstanding | k < |b.queue.handed| :: MayBeLate(b.queue, b.queue.handed[k].item, joins)
    case _ => true
  }

  predicate IsDisciplined(events: seq<Event>, joins: seq<string>)
    requires IsRun(events)
  {
    events == [] ||
    (IsDisciplined(events[..|events| - 1], joins) &&
     Disciplined(After(events[..|events| - 1]).binding, events[|events| - 1], joins))
  }

  /** The queue starts with the join events still to be published, in their order, `from` on. */
  ghost predicate JoinsThenOrdinary(pending: seq<Item>, joins: seq<string>, from: nat) {
    && from <= |joins| <= from + |pending|
    && (forall i :: 0 <= i < |joins| - from ==> pending[i].isJoin && pending[i].topic == joins[from + i])
    && (forall i :: |joins| - from <= i < |pending| ==> !pending[i].isJoin && pending[i].topic !in joins)
  }

  /** All items queued or handed over have ids already given away. */
  ghost predicate Aged(q: Queue) {
    && (forall i <- q.pending :: i.id < q.nextId)
    && (forall h <- q.handed :: h.item.id < q.nextId)
  }

  /** Every publish call outstanding is for the first pending item, an ordinary one, or one no longer pending. */
  ghost predicate Harmless(q: Queue) {
    && Aged(q)
    && forall k <- q.outstanding :: k < |q.handed| && IsHarmless(q.pending, q.handed[k].item)
  }

  predicate IsHarmless(pending: seq<Item>, item: Item) {
    !item.isJoin || item !in pending || item == pending[0]
  }

  /** A binding that still has a client, or may yet get one. */
  predicate InUse(b: Binding) {
    b.queue.hasClient || !b.phase.Unjoined?
  }

  ghost predicate Sorted(b: Binding, joins: seq<string>) {
    && (InUse(b) ==> Harmless(b.queue) && exists from :: JoinsThenOrdinary(b.queue.pending, joins, from))
    && (b.queue.hasClient ==> !b.phase.Initialized?)
    && (b.queue.hasClient || b.phase.Joined? ==> b.joinEvents == Composed(joins))
    && (b.unjoinEvent.Some? ==> b.unjoinEvent.value !in joins)
  }

  lemma {:induction false} AddJoinsSorts(q: Queue, joins: seq<string>, from: nat, j: nat)
    requires Distinct(joins) && JoinsThenOrdinary(q.pending, joins, from) && j <= |joins|
    ensures var r := AddJoins(q, Composed(joins[j..])).pending;
      var k := if j < from then j else from;
      JoinsThenOrdinary(r, joins, k) && |r| == from - k + |q.pending| && r[from - k..] == q.pending
    decreases |joins| - j
  {
    if j < |joins| {
      AddJoinsSorts(q, joins, from, j + 1);
      var s := AddJoins(q, Composed(joins[j + 1..]));
      assert joins[j..][1..] == joins[j + 1..];
      assert AddJoins(q, Composed(joins[j..])) == Add(s, Some(joins[j]), true, false, true, true);
      hide AddJoins, Composed, JoinsThenOrdinary, Distinct;
      AddJoinSorts(s, joins, if j + 1 < from then j + 1 else from, j);
    }
  }

  lemma AddJoinSorts(s: Queue, joins: seq<string>, k: nat, j: nat)
    requires Distinct(joins) && JoinsThenOrdinary(s.pending, joins, k) && j < |joins| && k <= j + 1
    ensures var r := Add(s, Some(joins[j]), true, false, true, true).pending;
      if k <= j then JoinsThenOrdinary(r, joins, k) && r == s.pending
      else JoinsThenOrdinary(r, joins, j) && |r| == 1 + |s.pending| && r[1..] == s.pending
  {
    if k <= j {
      assert s.pending[j - k].topic == joins[j];
    } else {
      assert !HasTopic(s.pending, joins[j]);
    }
  }

  lemma {:induction false} AddJoinsKeepsRest(q: Queue, joins: seq<Option<string>>)
    ensures var r := AddJoins(q, joins);
      r == q.(pending := r.pending, accepted := r.accepted, nextId := r.nextId)
  {
    hide HasTopic;
    if joins != [] {
      AddJoinsKeepsRest(q, joins[1..]);
    }
  }

  /** Queueing join events keeps what is known about outstanding calls. */
  lemma {:induction false} AddJoinsKeepsAged(q: Queue, joins: seq<Option<string>>)
    requires Aged(q)
    ensures Aged(AddJoins(q, joins)) && AddJoins(q, joins).nextId >= q.nextId
    ensures forall i <- AddJoins(q, joins).pending :: i in q.pending || i.id >= q.nextId
  {
    hide HasTopic;
    if joins != [] {
      AddJoinsKeepsAged(q, joins[1..]);
      AddJoinsKeepsRest(q, joins[1..]);
    }
  }

  lemma StartDraining(q: Queue)
    requires q.hasClient && Harmless(q)
    ensures var r := DoDrain(q.(isDraining := true));
      && Harmless(r) && r.hasClient && r.pending == q.pending
      && (r.pending != [] ==> r.handed == q.handed + [Handover(r.pending[0], |q.acked|)])
  {
  }

  /** A join event whose call may be late is the first pending item. */
  lemma FirstMayBeLate(pending: seq<Item>, joins: seq<string>, from: nat, item: Item)
    requires Distinct(joins) && JoinsThenOrdinary(pending, joins, from)
    requires item.isJoin && item in pending && joins != [] && item.topic == joins[0]
    ensures from == 0 && item == pending[0]
  {
    var i :| 0 <= i < |pending| && pending[i] == item;
    assert joins[from + i] == joins[0];
  }

  /** Connecting while only such calls are outstanding keeps them harmless. */
  lemma ConnectKeepsHarmless(q: Queue, joins: seq<string>, from: nat)
    requires Distinct(joins) && JoinsThenOrdinary(q.pending, joins, from) && Harmless(q)
    requires forall k <- q.outstanding | k < |q.handed| :: MayBeLate(q, q.handed[k].item, joins)
    ensures Harmless(AddJoins(q, Composed(joins)).(isDraining := false))
  {
    hide JoinsThenOrdinary, AddJoins, Composed, Distinct;
    assert joins[0..] == joins;
    var r := AddJoins(q, Composed(joins));
    AddJoinsSorts(q, joins, from, 0);
    AddJoinsKeepsRest(q, Composed(joins));
    AddJoinsKeepsAged(q, Composed(joins));
    forall k | k in q.outstanding
      ensures k < |q.handed| && IsHarmless(r.pending, q.handed[k].item)
    {
      var item := q.handed[k].item;
      assert q.handed[k] in q.handed;
      if item.isJoin && item in q.pending {
        FirstMayBeLate(q.pending, joins, from, item);
        assert r.pending[0..] == r.pending;
      }
    }
  }

  lemma ConnectSorts(q: Queue, joins: seq<string>, from: nat)
    requires Distinct(joins) && JoinsThenOrdinary(q.pending, joins, from) && q.hasClient && Harmless(q)
    requires forall k <- q.outstanding | k < |q.handed| :: MayBeLate(q, q.handed[k].item, joins)
    ensures var r := Connect(q, Composed(joins));
      && JoinsThenOrdinary(r.pending, joins, 0) && |r.pending| == from + |q.pending| && r.pending[from..] == q.pending
      && Harmless(r) && r.hasClient
      && (r.pending != [] ==> r.handed == q.handed + [Handover(r.pending[0], |q.acked|)])
  {
    hide JoinsThenOrdinary, AddJoins, Composed, Distinct, Harmless, DoDrain;
    assert joins[0..] == joins;
    AddJoinsSorts(q, joins, from, 0);
    AddJoinsKeepsRest(q, Composed(joins));
    ConnectKeepsHarmless(q, joins, from);
    StartDraining(AddJoins(q, Composed(joins)).(isDraining := false));
  }

  lemma AppendSorted(pending: seq<Item>, joins: seq<string>, from: nat, item: Item)
    requires JoinsThenOrdinary(pending, joins, from) && !item.isJoin && item.topic !in joins
    ensures JoinsThenOrdinary(pending + [item], joins, from)
  {
  }

  /** Queueing an ordinary item keeps outstanding calls harmless, and so does draining. */
  lemma AddKeepsHarmless(q: Queue, topic: Option<string>, hasCallback: bool)
    requires Harmless(q)
    ensures Harmless(Drain(Add(q, topic, false, hasCallback, false, false)))
  {
    var r := Add(q, topic, false, hasCallback, false, false);
    forall k | k in q.outstanding
      ensures k < |q.handed| && IsHarmless(r.pending, q.handed[k].item)
    {
      assert q.handed[k] in q.handed;
    }
    DoDrainKeepsHarmless(r.(isDraining := true));
  }

  lemma DoDrainKeepsHarmless(q: Queue)
    requires Harmless(q)
    ensures Harmless(DoDrain(q)) && Harmless(q.(isDraining := true)) && Harmless(q.(isDraining := false))
  {
  }

  lemma AppendKeepsSorted(q: Queue, joins: seq<string>, from: nat, topic: Option<string>, hasCallback: bool)
    requires Harmless(q) && JoinsThenOrdinary(q.pending, joins, from) && (topic.Some? ==> topic.value !in joins)
    ensures var r := Drain(Add(q, topic, false, hasCallback, false, false));
      Harmless(r) && JoinsThenOrdinary(r.pending, joins, from)
  {
    hide JoinsThenOrdinary, Harmless;
    AddKeepsHarmless(q, topic, hasCallback);
    if topic.Some? {
      AppendSorted(q.pending, joins, from, Item(q.nextId, topic.value, false, hasCallback));
    }
  }

  /** Removing the first item or an ordinary one keeps the join events in front. */
  lemma RemoveSorted(pending: seq<Item>, joins: seq<string>, from: nat, i: nat)
    requires JoinsThenOrdinary(pending, joins, from) && i < |pending| && (i == 0 || !pending[i].isJoin)
    ensures JoinsThenOrdinary(RemoveAt(pending, i), joins, if i == 0 && from < |joins| then from + 1 else from)
  {
  }

  /** Such a removal keeps calls for other items harmless. */
  lemma RemoveHarmless(pending: seq<Item>, joins: seq<string>, from: nat, i: nat, item: Item)
    requires Distinct(joins) && JoinsThenOrdinary(pending, joins, from)
    requires i < |pending| && (i == 0 || !pending[i].isJoin) && IsHarmless(pending, item)
    ensures IsHarmless(RemoveAt(pending, i), item)
  {
    var rest := RemoveAt(pending, i);
    if item.isJoin && item in rest {
      var m :| 0 <= m < |rest| && rest[m] == item;
      assert item in pending;
      assert rest[m] == pending[if m < i then m else m + 1];
      assert joins[from] == item.topic;
    }
  }

  lemma AcknowledgeKeepsSorted(q: Queue, joins: seq<string>, from: nat, item: Item)
    requires Distinct(joins) && JoinsThenOrdinary(q.pending, joins, from)
    requires Harmless(q) && IsHarmless(q.pending, item)
    ensures Harmless(Acknowledge(q, item))
    ensures exists from' :: JoinsThenOrdinary(Acknowledge(q, item).pending, joins, from')
  {
    hide JoinsThenOrdinary, RemoveAt, IsHarmless, Distinct;
    var i := ItemIndex(q.pending, item);
    if i != -1 {
      FirstOrOrdinary(q.pending, item);
      RemoveSorted(q.pending, joins, from, i);
      RemoveAtElements(q.pending, i);
      forall k | k in q.outstanding
        ensures k < |q.handed| && IsHarmless(RemoveAt(q.pending, i), q.handed[k].item)
      {
        RemoveHarmless(q.pending, joins, from, i, q.handed[k].item);
      }
    }
  }

  lemma FirstOrOrdinary(pending: seq<Item>, item: Item)
    requires item in pending && IsHarmless(pending, item)
    ensures ItemIndex(pending, item) == 0 || !item.isJoin
  {
  }

  lemma CallbackKeepsSorted(q: Queue, joins: seq<string>, from: nat, k: nat, failed: bool)
    requires Distinct(joins) && Harmless(q) && JoinsThenOrdinary(q.pending, joins, from)
    requires k in q.outstanding && k < |q.handed|
    ensures Harmless(Callback(q, k, failed))
    ensures exists from' :: JoinsThenOrdinary(Callback(q, k, failed).pending, joins, from')
  {
    var q1 := q.(outstanding := q.outstanding - {k});
    assert Harmless(q1) && IsHarmless(q.pending, q.handed[k].item);
    if failed {
      FailureIsHarmless(q1);
    } else {
      hide JoinsThenOrdinary, Harmless, Acknowledge, IsHarmless, Distinct;
      AcknowledgeKeepsSorted(q1, joins, from, q.handed[k].item);
      DoDrainKeepsHarmless(Acknowledge(q1, q.handed[k].item));
    }
  }

  lemma FailureIsHarmless(q: Queue)
    requires Harmless(q)
    ensures Harmless(q.(isDraining := false, fired := q.fired + Failures(q.pending)))
  {
    hide Failures;
  }

  lemma StepKeepsClient(b: Binding, e: Event)
    requires Possible(b, e)
    ensures Step(b, e).queue.hasClient ==> b.queue.hasClient || (e.Join? && b.phase.Initialized?)
  {
    hide HasTopic, Failures, AddJoins;
    if e.Connected? {
      AddJoinsKeepsRest(b.queue, b.joinEvents);
    }
  }

  lemma StepKeepsSorted(b: Binding, e: Event, joins: seq<string>)
    requires Distinct(joins) && Sorted(b, joins) && Possible(b, e) && Disciplined(b, e, joins)
    ensures Sorted(Step(b, e), joins)
  {
    hide JoinsThenOrdinary, Connect, Callback, Add, Composed, Harmless, MayBeLate, Drain;
    var c := Step(b, e);
    StepKeepsClient(b, e);
    if InUse(c) {
      var from :| JoinsThenOrdinary(b.queue.pending, joins, from);
      match e
      case Join(_, _) =>
        HarmlessIgnores(b.queue);
      case Published(topic) =>
        if !b.phase.Unjoined? {
          AppendKeepsSorted(b.queue, joins, from, topic, false);
        }
      case Connected =>
        ConnectSorts(b.queue, joins, from);
      case Disconnected =>
        HarmlessIgnores(b.queue);
      case CalledBack(k, failed) =>
        CallbackKeepsSorted(b.queue, joins, from, k, failed);
      case Unjoined =>
        if !b.phase.Unjoined? {
          AppendKeepsSorted(b.queue, joins, from, b.unjoinEvent, true);
        }
      case _ =>
    }
  }

  lemma HarmlessIgnores(q: Queue)
    requires Harmless(q)
    ensures Harmless(q.(isDraining := true)) && Harmless(q.(hasClient := true))
  {
  }

  lemma {:induction false} AlwaysSorted(events: seq<Event>, joins: seq<string>)
    requires Distinct(joins) && IsRun(events) && IsDisciplined(events, joins)
    ensures Sorted(After(events).binding, joins)
  {
    if events == [] {
      assert JoinsThenOrdinary([], joins, |joins|);
    } else {
      var before := events[..|events| - 1];
      AlwaysSorted(before, joins);
      StepKeepsSorted(After(before).binding, events[|events| - 1], joins);
    }
  }

  lemma {:induction false} OnlyOneKind(items: seq<Item>, isJoin: bool)
    requires forall item <- items :: item.isJoin == isJoin
    ensures Ordinary(items) == if isJoin then [] else items
  {
    if items != [] {
      OnlyOneKind(items[1..], isJoin);
    }
  }

  lemma OrdinaryPart(pending: seq<Item>, joins: seq<string>, from: nat)
    requires JoinsThenOrdinary(pending, joins, from)
    ensures Ordinary(pending) == pending[|joins| - from..]
  {
    hide Ordinary;
    var n := |joins| - from;
    assert pending == pending[..n] + pending[n..];
    OrdinaryConcat(pending[..n], pending[n..]);
    OnlyOneKind(pending[..n], true);
    OnlyOneKind(pending[n..], false);
  }

  /**
   * On each connect the queue becomes all join events in the given order, followed by the
   * ordinary items in their old order, however earlier connections ended; and its first item
   * is handed over. This needs that no publish call left over from an earlier connection is
   * for a pending join event other than the first one.
   */
  lemma JoinEventsComeFirst(events: seq<Event>, joins: seq<string>)
    requires Distinct(joins) && IsRun(events) && IsDisciplined(events, joins)
    requires After(events).binding.queue.hasClient && Disciplined(After(events).binding, Connected, joins)
    ensures var q := After(events).binding.queue;
      var r := Step(After(events).binding, Connected).queue;
      && |r.pending| == |joins| + |Ordinary(q.pending)|
      && (forall i :: 0 <= i < |joins| ==> r.pending[i].isJoin && r.pending[i].topic == joins[i])
      && r.pending[|joins|..] == Ordinary(q.pending)
      && (r.pending != [] ==> r.handed == q.handed + [Handover(r.pending[0], |q.acked|)])
  {
    hide Connect, Composed, Distinct, Harmless, MayBeLate;
    AlwaysSorted(events, joins);
    var q := After(events).binding.queue;
    var from: nat :| JoinsThenOrdinary(q.pending, joins, from);
    OrdinaryPart(q.pending, joins, from);
    ConnectSorts(q, joins, from);
    var r := Connect(q, Composed(joins));
    assert r.pending[|joins|..] == r.pending[from..][|joins| - from..];
  }

  // ---------------------------------------------------------------- join events out of order

  /** Queueing join events of which only the one at `m` is missing puts that one first. */
  lemma {:induction false} AddMissing(q: Queue, joins: seq<string>, m: nat, j: nat)
    requires Distinct(joins) && m < |joins| && j <= |joins|
    requires forall i | 0 <= i < |joins| :: HasTopic(q.pending, joins[i]) <==> i != m
    ensures var r := AddJoins(q, Composed(joins[j..])).pending;
      if j <= m then r != [] && r[0].isJoin && r[0].topic == joins[m] && r[1..] == q.pending else r == q.pending
    decreases |joins| - j
  {
    if j < |joins| {
      AddMissing(q, joins, m, j + 1);
      var s := AddJoins(q, Composed(joins[j + 1..]));
      assert joins[j..][1..] == joins[j + 1..];
      assert AddJoins(q, Composed(joins[j..])) == Add(s, Some(joins[j]), true, false, true, true);
      if j < m {
        assert s.pending == [s.pending[0]] + q.pending;
        assert HasTopic(s.pending, joins[j]);
      }
    }
  }

  lemma RemovedTopics(pending: seq<Item>, joins: seq<string>, m: nat)
    requires Distinct(joins) && JoinsThenOrdinary(pending, joins, 0) && m < |joins|
    ensures forall i | 0 <= i < |joins| :: HasTopic(RemoveAt(pending, m), joins[i]) <==> i != m
  {
    hide RemoveAt;
    var rest := RemoveAt(pending, m);
    RemoveAtElements(pending, m);
    forall i | 0 <= i < |joins| && i != m
      ensures HasTopic(rest, joins[i])
    {
      assert rest[if i < m then i else i - 1].topic == joins[i];
    }
  }

  /** A pending join event stands where its topic does. */
  lemma StandsAt(pending: seq<Item>, joins: seq<string>, from: nat, item: Item) returns (m: nat)
    requires Distinct(joins) && JoinsThenOrdinary(pending, joins, from) && item.isJoin && item in pending
    ensures from <= m < |joins| && joins[m] == item.topic && ItemIndex(pending, item) == m - from
  {
    var i := ItemIndex(pending, item);
    m := from + i;
  }

  /** The callback of a call for a pending join event removes it, wherever it stands. */
  lemma LateCallback(q: Queue, joins: seq<string>, k: nat, m: nat)
    requires Distinct(joins) && JoinsThenOrdinary(q.pending, joins, 0) && q.hasClient && k < |q.handed| && m < |joins|
    requires q.handed[k].item == q.pending[m]
    ensures Callback(q, k, false).pending == RemoveAt(q.pending, m) && Callback(q, k, false).hasClient
  {
    var i := ItemIndex(q.pending, q.pending[m]);
    assert joins[i] == joins[m];
  }

  /** Connecting again puts the join event first that was removed. */
  lemma ConnectAgain(q: Queue, joins: seq<string>, pending: seq<Item>, m: nat)
    requires Distinct(joins) && JoinsThenOrdinary(pending, joins, 0) && m < |joins|
    requires q.hasClient && q.pending == RemoveAt(pending, m)
    ensures var r := Connect(q, Composed(joins)).pending;
      r != [] && r[0].isJoin && r[0].topic == joins[m] && r[1..] == RemoveAt(pending, m)
  {
    hide AddJoins, Composed, Distinct, JoinsThenOrdinary, HasTopic;
    RemovedTopics(pending, joins, m);
    assert joins[0..] == joins;
    AddMissing(q, joins, m, 0);
  }

  /** Connecting puts the missing join events in front, whatever is outstanding. */
  lemma ConnectAnyway(q: Queue, joins: seq<string>, from: nat, k: nat, m: nat)
    requires Distinct(joins) && JoinsThenOrdinary(q.pending, joins, from) && q.hasClient
    requires k in q.outstanding && k < |q.handed| && from <= m < |joins| && q.pending[m - from] == q.handed[k].item
    ensures var r := Connect(q, Composed(joins));
      && JoinsThenOrdinary(r.pending, joins, 0) && r.hasClient
      && k in r.outstanding && k < |r.handed| && r.handed[k] == q.handed[k] && r.pending[m] == q.handed[k].item
  {
    hide AddJoins, Composed, Distinct;
    assert joins[0..] == joins;
    AddJoinsSorts(q, joins, from, 0);
    AddJoinsKeepsRest(q, Composed(joins));
    var r := AddJoins(q, Composed(joins));
    assert r.pending[from..][m - from] == r.pending[m];
  }

  /** The binding after connecting, a late callback, a disconnect, and connecting again. */
  ghost predicate Leads(b: Binding, k: nat, b': Binding) {
    && Possible(b, Connected)
    && var b1 := Step(b, Connected);
    && Possible(b1, CalledBack(k, false))
    && var b2 := Step(b1, CalledBack(k, false));
    && Possible(b2, Disconnected)
    && var b3 := Step(b2, Disconnected);
    && Possible(b3, Connected) && b' == Step(b3, Connected)
  }

  lemma LateCallbackPutsFirst(b: Binding, joins: seq<string>, from: nat, k: nat) returns (b': Binding)
    requires Distinct(joins) && b.joinEvents == Composed(joins) && b.queue.hasClient
    requires JoinsThenOrdinary(b.queue.pending, joins, from)
    requires k in b.queue.outstanding && k < |b.queue.handed|
    requires b.queue.handed[k].item.isJoin && b.queue.handed[k].item in b.queue.pending
    ensures Leads(b, k, b')
    ensures var pending := b'.queue.pending;
      && |pending| >= |joins| && pending != [] && pending[0].isJoin
      && pending[0].topic == b.queue.handed[k].item.topic
  {
    hide Connect, Callback, Composed, Distinct;
    var m := StandsAt(b.queue.pending, joins, from, b.queue.handed[k].item);
    ConnectAnyway(b.queue, joins, from, k, m);
    var b1 := Step(b, Connected);
    LateCallback(b1.queue, joins, k, m);
    var b2 := Step(b1, CalledBack(k, false));
    var b3 := Step(b2, Disconnected);
    ConnectAgain(b3.queue, joins, b1.queue.pending, m);
    b' := Step(b3, Connected);
  }

  lemma Extend(events: seq<Event>, e: Event) returns (longer: seq<Event>)
    requires IsRun(events) && Possible(After(events).binding, e)
    ensures longer == events + [e] && IsRun(longer) && After(longer).binding == Step(After(events).binding, e)
  {
    longer := events + [e];
    assert longer[..|events|] == events;
  }

  lemma ExtendByLateCallback(events: seq<Event>, k: nat, b': Binding)
    requires IsRun(events) && Leads(After(events).binding, k, b')
    ensures var longer := events + [Connected, CalledBack(k, false), Disconnected, Connected];
      IsRun(longer) && After(longer).binding == b'
  {
    hide IsRun, After, Step, Possible;
    var events1 := Extend(events, Connected);
    var events2 := Extend(events1, CalledBack(k, false));
    var events3 := Extend(events2, Disconnected);
    var events4 := Extend(events3, Connected);
    assert events4 == events + [Connected, CalledBack(k, false), Disconnected, Connected];
  }

  /**
   * The condition is needed: from any other connect, the run can go on so that the join
   * event with the outstanding call comes before the first one. It does so when that call is
   * called back only then, and the connection breaks and is made once more.
   */
  lemma LateCallbackBreaksOrder(events: seq<Event>, joins: seq<string>, k: nat)
    requires Distinct(joins) && IsRun(events) && IsDisciplined(events, joins)
    requires After(events).binding.queue.hasClient
    requires var q := After(events).binding.queue;
      k in q.outstanding && k < |q.handed| && !MayBeLate(q, q.handed[k].item, joins)
    ensures var more := [Connected, CalledBack(k, false), Disconnected, Connected];
      && IsRun(events + more)
      && var pending := After(events + more).binding.queue.pending;
      && |pending| >= |joins| > 0 && pending[0].isJoin
      && pending[0].topic == After(events).binding.queue.handed[k].item.topic != joins[0]
  {
    AlwaysSorted(events, joins);
    hide IsRun, After, IsDisciplined, Composed, Harmless, Distinct, Leads;
    var b := After(events).binding;
    var from: nat :| JoinsThenOrdinary(b.queue.pending, joins, from);
    JoinsGiven(b.queue.pending, joins, from, b.queue.handed[k].item);
    hide JoinsThenOrdinary;
    var b' := LateCallbackPutsFirst(b, joins, from, k);
    ExtendByLateCallback(events, k, b');
  }

  lemma JoinsGiven(pending: seq<Item>, joins: seq<string>, from: nat, item: Item)
    requires JoinsThenOrdinary(pending, joins, from) && item.isJoin && item in pending
    ensures joins != []
  {
  }

  lemma ExtendDisciplined(events: seq<Event>, e: Event, joins: seq<string>) returns (longer: seq<Event>)
    requires IsRun(events) && Possible(After(events).binding, e)
    requires IsDisciplined(events, joins) && Disciplined(After(events).binding, e, joins)
    ensures longer == events + [e] && IsRun(longer) && After(longer).binding == Step(After(events).binding, e)
    ensures IsDisciplined(longer, joins)
  {
    hide Disciplined, Possible, Step;
    longer := Extend(events, e);
    assert longer[..|events|] == events;
  }

  lemma EmptyRun(joins: seq<string>)
    ensures IsRun([]) && IsDisciplined([], joins) && After([]) == Link(INITIAL, false, false)
  {
  }

  /** The first of two join events is acknowledged, and the second one is handed over. */
  lemma FirstAcknowledged(q: Queue, joins: seq<string>)
    requires |joins| == 2 && Distinct(joins) && JoinsThenOrdinary(q.pending, joins, 0) && |q.pending| == 2
    requires q.hasClient && |q.handed| == 1 && q.outstanding == {0} && q.handed[0].item == q.pending[0]
    ensures var r := Callback(q, 0, false);
      && r.hasClient && r.pending == [q.pending[1]] && r.outstanding == {1} && |r.handed| == 2
      && r.handed[1].item == q.pending[1]
  {
    assert ItemIndex(q.pending, q.pending[0]) == 0;
    assert RemoveAt(q.pending, 0) == [q.pending[1]];
  }

  lemma FirstConnect(q: Queue, joins: seq<string>)
    requires q == EMPTY.(hasClient := true) && |joins| == 2 && Distinct(joins)
    ensures var r := Connect(q, Composed(joins));
      && r.hasClient && JoinsThenOrdinary(r.pending, joins, 0) && |r.pending| == 2
      && r.outstanding == {0} && |r.handed| == 1 && r.handed[0].item == r.pending[0]
  {
    hide AddJoins, Composed, Distinct;
    assert JoinsThenOrdinary(q.pending, joins, 2) && joins[0..] == joins;
    AddJoinsSorts(q, joins, 2, 0);
    AddJoinsKeepsRest(q, Composed(joins));
  }

  lemma TwoJoins() returns (joins: seq<string>)
    ensures joins == ["a", "b"] && Composed(joins) == [Some("a"), Some("b")] && Distinct(joins)
  {
    joins := ["a", "b"];
    assert joins[1..] == ["b"] && joins[1..][1..] == [];
  }

  lemma StartedUp(joins: seq<string>) returns (events: seq<Event>)
    requires |joins| == 2 && Distinct(joins)
    ensures events == [Join(Composed(joins), None), Connected]
    ensures IsRun(events) && IsDisciplined(events, joins)
    ensures var q := After(events).binding.queue;
      && q.hasClient && JoinsThenOrdinary(q.pending, joins, 0) && |q.pending| == 2
      && q.outstanding == {0} && |q.handed| == 1 && q.handed[0].item == q.pending[0]
  {
    EmptyRun(joins);
    hide Connect, IsRun, After, IsDisciplined, Composed, JoinsThenOrdinary, Distinct;
    events := ExtendDisciplined([], Join(Composed(joins), None), joins);
    FirstConnect(After(events).binding.queue, joins);
    events := ExtendDisciplined(events, Connected, joins);
  }

  /** There is such a run: the connection breaks while the second join event is being published. */
  lemma BrokenOff() returns (events: seq<Event>, joins: seq<string>)
    ensures joins == ["a", "b"] && Distinct(joins)
    ensures events == [Join([Some("a"), Some("b")], None), Connected, CalledBack(0, false), Disconnected]
    ensures IsRun(events) && IsDisciplined(events, joins)
    ensures var q := After(events).binding.queue;
      && q.hasClient && q.outstanding == {1} && |q.handed| == 2
      && q.handed[1].item.topic == "b" && !MayBeLate(q, q.handed[1].item, joins)
  {
    joins := TwoJoins();
    assert joins[0] != joins[1];
    hide Connect, Callback, IsRun, After, IsDisciplined, Composed, JoinsThenOrdinary, Distinct;
    events := StartedUp(joins);
    var q := After(events).binding.queue;
    SecondJoin(q.pending, joins);
    FirstAcknowledged(q, joins);
    events := ExtendDisciplined(events, CalledBack(0, false), joins);
    events := ExtendDisciplined(events, Disconnected, joins);
  }

  /** So the join event "b" can be pending before the join event "a". */
  lemma JoinEventsOutOfOrder()
    ensures var events := [Join([Some("a"), Some("b")], None), Connected, CalledBack(0, false), Disconnected,
                           Connected, CalledBack(1, false), Disconnected, Connected];
      && IsRun(events)
      && var pending := After(events).binding.queue.pending;
      |pending| >= 2 && pending[0].isJoin && pending[0].topic == "b"
  {
    hide IsRun, After, IsDisciplined, MayBeLate;
    var events, joins := BrokenOff();
    LateCallbackBreaksOrder(events, joins, 1);
    assert events + [Connected, CalledBack(1, false), Disconnected, Connected] ==
           [Join([Some("a"), Some("b")], None), Connected, CalledBack(0, false), Disconnected,
            Connected, CalledBack(1, false), Disconnected, Connected];
  }

  lemma SecondJoin(pending: seq<Item>, joins: seq<string>)
    requires |joins| == 2 && JoinsThenOrdinary(pending, joins, 0)
    ensures pending[1].isJoin && pending[1].topic == joins[1]
  {
  }
}

/** The registry of an object lifecycle controller and the changes it emits. */
module ObjectLifecycle {
  import opened Prelude
  import opened IoModel
  import opened Deep

  /** A Coaty object; `properties` holds all properties but the two identifiers. */
  datatype CoatyObject = CoatyObject(objectId: Uuid, parentObjectId: Option<Uuid>, properties: Json)

  /** Deep equality of Coaty objects. */
  ghost predicate DeepEqual(a: CoatyObject, b: CoatyObject) {
    a.objectId == b.objectId && a.parentObjectId == b.parentObjectId && Meaning(a.properties) == Meaning(b.properties)
  }

  datatype LifecycleInfo =
    | Added(added: seq<CoatyObject>)
    | Changed(changed: seq<CoatyObject>)
    | Removed(removed: seq<CoatyObject>)

  /** A registry keeps its objects in the order in which they were first set. */
  type Registry = seq<CoatyObject>

  ghost predicate Valid(registry: Registry) {
    && (forall i, j :: 0 <= i < j < |registry| ==> registry[i].objectId != registry[j].objectId)
    && (forall o <- registry :: WellFormed(o.properties))
  }

  /** The position of the object with an id, or the length of the registry. */
  function Position(registry: Registry, id: Uuid): (i: nat)
    ensures i <= |registry|
    ensures i < |registry| ==> registry[i].objectId == id
    ensures forall k :: 0 <= k < i ==> registry[k].objectId != id
  {
    if registry == [] || registry[0].objectId == id then 0 else 1 + Position(registry[1..], id)
  }

  function Get(registry: Registry, id: Uuid): Option<CoatyObject> {
    var i := Position(registry, id);
    if i < |registry| then Some(registry[i]) else None
  }

  function Set(registry: Registry, obj: CoatyObject): Registry {
    var i := Position(registry, obj.objectId);
    if i < |registry| then registry[i := obj] else registry + [obj]
  }

  // ---------------------------------------------------------------- deadvertising

  predicate IsChild(o: CoatyObject, id: Uuid) {
    o.parentObjectId == Some(id)
  }

  function Children(registry: Registry, id: Uuid): seq<CoatyObject> {
    if registry == [] then []
    else (if IsChild(registry[0], id) then [registry[0]] else []) + Children(registry[1..], id)
  }

  function WithoutChildren(registry: Registry, id: Uuid): Registry {
    if registry == [] then []
    else (if IsChild(registry[0], id) then [] else [registry[0]]) + WithoutChildren(registry[1..], id)
  }

  function Without(registry: Registry, id: Uuid): Registry {
    var rest := WithoutChildren(registry, id);
    var i := Position(rest, id);
    if i < |rest| then RemoveAt(rest, i) else rest
  }

  /** What the removal of an id reports: the children, then the object itself. */
  function Reported(registry: Registry, id: Uuid): seq<CoatyObject> {
    Children(registry, id) + match Get(registry, id) case Some(o) => [o] case None => []
  }

  function WithoutAll(registry: Registry, ids: seq<Uuid>): Registry {
    if ids == [] then registry else Without(WithoutAll(registry, ids[..|ids| - 1]), ids[|ids| - 1])
  }

  function ReportedAll(registry: Registry, ids: seq<Uuid>): seq<CoatyObject> {
    if ids == [] then []
    else
      var before := ids[..|ids| - 1];
      ReportedAll(registry, before) + Reported(WithoutAll(registry, before), ids[|ids| - 1])
  }

  ghost function InfoOnAdd(registry: Registry, obj: CoatyObject): Option<LifecycleInfo> {
    match Get(registry, obj.objectId)
    case None => Some(Added([obj]))
    case Some(robj) => if DeepEqual(obj, robj) then None else Some(Changed([obj]))
  }

  function InfoOnRemove(registry: Registry, ids: seq<Uuid>): Option<LifecycleInfo> {
    var removed := ReportedAll(registry, ids);
    if removed == [] then None else Some(Removed(removed))
  }

  // ---------------------------------------------------------------- the controller

  class ObjectLifecycleController {
    var registry: Registry

    constructor ()
      ensures registry == []
    {
      registry := [];
    }

    method AddToRegistry(obj: CoatyObject) returns (info: Option<LifecycleInfo>)
      requires Valid(registry) && WellFormed(obj.properties)
      modifies this
      ensures Valid(registry) && registry == Set(old(registry), obj)
      ensures info == InfoOnAdd(old(registry), obj)
    {
      var robj := Get(registry, obj.objectId);
      registry := Set(registry, obj);
      if robj.None? {
        return Some(Added([obj]));
      }
      var equal := Equals(obj.properties, robj.value.properties);
      if !equal || obj.parentObjectId != robj.value.parentObjectId {
        return Some(Changed([obj]));
      }
      return None;
    }

    method RemoveFromRegistry(objectIds: seq<Uuid>) returns (info: Option<LifecycleInfo>)
      requires Valid(registry)
      modifies this
      ensures Valid(registry) && registry == WithoutAll(old(registry), objectIds)
      ensures info == InfoOnRemove(old(registry), objectIds)
    {
      var removed := [];
      for i := 0 to |objectIds|
        invariant Valid(registry) && registry == WithoutAll(old(registry), objectIds[..i])
        invariant removed == ReportedAll(old(registry), objectIds[..i])
      {
        assert objectIds[..i + 1][..i] == objectIds[..i];
        removed := UpdateRegistryOnRemove(objectIds[i], removed);
      }
      assert objectIds[..|objectIds|] == objectIds;
      if |removed| == 0 {
        return None;
      }
      return Some(Removed(removed));
    }

    method UpdateRegistryOnRemove(objectId: Uuid, removed: seq<CoatyObject>) returns (r: seq<CoatyObject>)
      requires Valid(registry)
      modifies this
      ensures Valid(registry) && registry == Without(old(registry), objectId)
      ensures r == removed + Reported(old(registry), objectId)
    {
      var obj := Get(registry, objectId);
      WithoutChildrenValid(registry, objectId);
      if obj.None? {
        NotLeft(registry, objectId);
      }
      r := RemoveChildren(objectId, removed);
      if obj.Some? {
        var position := Position(registry, objectId);
        if position < |registry| {
          registry := RemoveAt(registry, position);
        }
        r := r + [obj.value];
      }
    }

    /** Iterates over the registry while deleting from it. */
    method RemoveChildren(objectId: Uuid, removed: seq<CoatyObject>) returns (r: seq<CoatyObject>)
      modifies this
      ensures registry == WithoutChildren(old(registry), objectId)
      ensures r == removed + Children(old(registry), objectId)
    {
      hide Children, WithoutChildren;
      r := removed;
      var i := 0;
      ghost var all := registry;
      ghost var k := 0;
      NoChildren(objectId);
      while i < |registry|
        invariant 0 <= k <= |all| && i <= |registry|
        invariant registry[..i] == WithoutChildren(all[..k], objectId) && registry[i..] == all[k..]
        invariant r == removed + Children(all[..k], objectId)
        decreases |registry| - i
      {
        var o := registry[i];
        assert o == all[k] && registry[i + 1..] == all[k + 1..];
        ChildrenStep(all, k, objectId);
        if o.parentObjectId == Some(objectId) {
          registry := RemoveAt(registry, i);
          r := r + [o];
        } else {
          i := i + 1;
        }
        k := k + 1;
      }
      assert all[..|all|] == all;
    }
  }

  lemma NoChildren(id: Uuid)
    ensures Children([], id) == [] && WithoutChildren([], id) == []
  {
  }

  /** An object that is not registered is not left after removing children either. */
  lemma NotLeft(registry: Registry, id: Uuid)
    requires Get(registry, id).None?
    ensures Get(WithoutChildren(registry, id), id).None?
  {
    WithoutChildrenKeeps(registry, id);
  }

  lemma ChildrenFirst(registry: Registry, id: Uuid)
    requires registry != []
    ensures Children(registry, id) ==
        (if IsChild(registry[0], id) then [registry[0]] else []) + Children(registry[1..], id)
    ensures WithoutChildren(registry, id) ==
            (if IsChild(registry[0], id) then [] else [registry[0]]) + WithoutChildren(registry[1..], id)
  {
  }

  lemma {:induction false} ChildrenAppend(a: Registry, o: CoatyObject, id: Uuid)
    ensures Children(a + [o], id) == Children(a, id) + if IsChild(o, id) then [o] else []
    ensures WithoutChildren(a + [o], id) == WithoutChildren(a, id) + if IsChild(o, id) then [] else [o]
  {
    hide Children, WithoutChildren, IsChild;
    ChildrenFirst(a + [o], id);
    NoChildren(id);
    if a == [] {
      assert a + [o] == [o] && [o][1..] == [];
    } else {
      ChildrenAppend(a[1..], o, id);
      assert (a + [o])[1..] == a[1..] + [o];
      ChildrenFirst(a, id);
    }
  }

  lemma ChildrenStep(all: Registry, k: nat, id: Uuid)
    requires k < |all|
    ensures Children(all[..k + 1], id) == Children(all[..k], id) + if IsChild(all[k], id) then [all[k]] else []
    ensures WithoutChildren(all[..k + 1], id) ==
            WithoutChildren(all[..k], id) + if IsChild(all[k], id) then [] else [all[k]]
  {
    assert all[..k + 1] == all[..k] + [all[k]];
    ChildrenAppend(all[..k], all[k], id);
  }

  lemma {:induction false} WithoutChildrenKeeps(registry: Registry, id: Uuid)
    ensures forall o :: o in WithoutChildren(registry, id) <==> o in registry && !IsChild(o, id)
    ensures forall o :: o in Children(registry, id) <==> o in registry && IsChild(o, id)
  {
    if registry != [] {
      WithoutChildrenKeeps(registry[1..], id);
      assert forall o :: o in registry <==> o == registry[0] || o in registry[1..];
    }
  }

  lemma {:induction false} WithoutChildrenValid(registry: Registry, id: Uuid)
    requires Valid(registry)
    ensures Valid(WithoutChildren(registry, id))
  {
    if registry != [] {
      WithoutChildrenValid(registry[1..], id);
      WithoutChildrenKeeps(registry[1..], id);
      var rest := WithoutChildren(registry[1..], id);
      forall i | 0 <= i < |rest|
        ensures rest[i].objectId != registry[0].objectId
      {
        assert rest[i] in registry[1..];
      }
    }
  }

  // ---------------------------------------------------------------- what a deadvertise event removes

  /** The object's id or its parent's id is listed. */
  predicate Listed(o: CoatyObject, ids: seq<Uuid>) {
    o.objectId in ids || (o.parentObjectId.Some? && o.parentObjectId.value in ids)
  }

  lemma PositionOf(registry: Registry, o: CoatyObject)
    requires Valid(registry) && o in registry
    ensures Get(registry, o.objectId) == Some(o)
  {
    var k :| 0 <= k < |registry| && registry[k] == o;
  }

  lemma DropAt(registry: Registry, i: nat)
    requires Valid(registry) && i < |registry|
    ensures var r := RemoveAt(registry, i);
      Valid(r) && forall o :: o in r <==> o in registry && o.objectId != registry[i].objectId
  {
    hide RemoveAt;
    var r := RemoveAt(registry, i);
    RemoveAtElements(registry, i);
    forall o | o in registry && o.objectId != registry[i].objectId
      ensures o in r
    {
      var k :| 0 <= k < |registry| && registry[k] == o;
      assert r[if k < i then k else k - 1] == o;
    }
  }

  lemma WithoutMeans(registry: Registry, id: Uuid)
    requires Valid(registry)
    ensures Valid(Without(registry, id))
    ensures forall o :: o in Without(registry, id) <==> o in registry && o.objectId != id && !IsChild(o, id)
  {
    hide WithoutChildren, Valid;
    var rest := WithoutChildren(registry, id);
    WithoutChildrenValid(registry, id);
    WithoutChildrenKeeps(registry, id);
    if Position(rest, id) < |rest| {
      DropAt(rest, Position(rest, id));
    }
  }

  lemma ReportedMeans(registry: Registry, id: Uuid)
    requires Valid(registry)
    ensures forall o :: o in Reported(registry, id) <==> o in registry && (o.objectId == id || IsChild(o, id))
    ensures Distinct(Reported(registry, id)) <==> forall o <- registry :: o.objectId == id ==> !IsChild(o, id)
  {
    hide Children;
    WithoutChildrenKeeps(registry, id);
    ChildrenDistinct(registry, id);
    var own := Get(registry, id);
    forall o | o in registry && o.objectId == id
      ensures own == Some(o)
    {
      PositionOf(registry, o);
    }
    var r := Reported(registry, id);
    if own.Some? {
      assert own.value in registry;
      assert r == Children(registry, id) + [own.value] && own.value in r;
      if IsChild(own.value, id) {
        var k :| 0 <= k < |Children(registry, id)| && Children(registry, id)[k] == own.value;
        assert r[k] == r[|r| - 1];
      }
    } else {
      assert r == Children(registry, id);
    }
  }

  /** A removal reports the children in the order of the registry, and the object itself last. */
  lemma ReportedInOrder(registry: Registry, id: Uuid)
    requires Valid(registry)
    ensures var r := Reported(registry, id);
      && (forall o <- registry | o.objectId == id :: r != [] && r[|r| - 1] == o)
      && var n := if Get(registry, id).Some? then |r| - 1 else |r|;
      && (forall k | 0 <= k < n :: IsChild(r[k], id))
      && forall i, j | 0 <= i < j < n ::
           Position(registry, r[i].objectId) < Position(registry, r[j].objectId) < |registry|
  {
    hide Valid;
    ChildrenInOrder(registry, id);
    forall o | o in registry && o.objectId == id
      ensures Get(registry, id) == Some(o)
    {
      PositionOf(registry, o);
    }
  }

  lemma {:induction false} ChildrenInOrder(registry: Registry, id: Uuid)
    requires Valid(registry)
    ensures var c := Children(registry, id);
      && (forall o <- c :: IsChild(o, id) && Position(registry, o.objectId) < |registry|)
      && forall i, j | 0 <= i < j < |c| :: Position(registry, c[i].objectId) < Position(registry, c[j].objectId)
  {
    if registry != [] {
      var rest := registry[1..];
      ChildrenInOrder(rest, id);
      WithoutChildrenKeeps(rest, id);
      forall o | o in Children(rest, id)
        ensures Position(registry, o.objectId) == 1 + Position(rest, o.objectId)
      {
        assert o in rest;
      }
    }
  }

  lemma {:induction false} ChildrenDistinct(registry: Registry, id: Uuid)
    requires Valid(registry)
    ensures Distinct(Children(registry, id))
  {
    if registry != [] {
      ChildrenDistinct(registry[1..], id);
      WithoutChildrenKeeps(registry[1..], id);
      assert registry[0] !in registry[1..];
    }
  }

  lemma ListedLast(ids: seq<Uuid>)
    requires ids != []
    ensures forall o :: Listed(o, ids) <==>
              Listed(o, ids[..|ids| - 1]) || o.objectId == ids[|ids| - 1] || IsChild(o, ids[|ids| - 1])
  {
    assert ids == ids[..|ids| - 1] + [ids[|ids| - 1]];
  }

  /** A deadvertise event removes and reports exactly the objects whose id or parent id is listed. */
  lemma {:induction false} RemovesListed(registry: Registry, ids: seq<Uuid>)
    requires Valid(registry)
    ensures Valid(WithoutAll(registry, ids))
    ensures forall o :: o in WithoutAll(registry, ids) <==> o in registry && !Listed(o, ids)
    ensures forall o :: o in ReportedAll(registry, ids) <==> o in registry && Listed(o, ids)
  {
    if ids != [] {
      var before, id := ids[..|ids| - 1], ids[|ids| - 1];
      hide Valid, Without, Reported, Listed, IsChild;
      RemovesListed(registry, before);
      WithoutMeans(WithoutAll(registry, before), id);
      ReportedMeans(WithoutAll(registry, before), id);
      ListedLast(ids);
    }
  }

  /** Every removed object is reported once, exactly if no object that is listed is its own parent. */
  lemma {:induction false} ReportedOnce(registry: Registry, ids: seq<Uuid>)
    requires Valid(registry)
    ensures Distinct(ReportedAll(registry, ids)) <==>
            forall o <- registry :: o.objectId in ids ==> !IsChild(o, o.objectId)
  {
    hide Valid, Reported, Listed;
    if ids != [] {
      var before, id := ids[..|ids| - 1], ids[|ids| - 1];
      var left := WithoutAll(registry, before);
      ReportedOnce(registry, before);
      RemovesListed(registry, before);
      ReportedMeans(left, id);
      assert ids == before + [id];
      DistinctConcat(ReportedAll(registry, before), Reported(left, id));
      SelfParents(registry, left, before, id);
    }
  }

  lemma SelfParents(registry: Registry, left: Registry, before: seq<Uuid>, id: Uuid)
    requires forall o :: o in left <==> o in registry && !Listed(o, before)
    ensures (forall o <- registry :: o.objectId in before + [id] ==> !IsChild(o, o.objectId)) <==>
            (forall o <- registry :: o.objectId in before ==> !IsChild(o, o.objectId)) &&
            (forall o <- left :: o.objectId == id ==> !IsChild(o, id))
  {
    forall o | o in registry && IsChild(o, o.objectId)
      ensures o in left <==> o.objectId !in before
    {
      ListedSelf(o, before);
    }
  }

  lemma ListedSelf(o: CoatyObject, ids: seq<Uuid>)
    ensures o.objectId in ids ==> Listed(o, ids)
    ensures IsChild(o, o.objectId) ==> (Listed(o, ids) <==> o.objectId in ids)
  {
  }

  lemma DistinctConcat<T>(a: seq<T>, b: seq<T>)
    requires forall x <- a :: x !in b
    ensures Distinct(a + b) <==> Distinct(a) && Distinct(b)
  {
    if Distinct(a + b) {
      forall i, j | 0 <= i < j < |a|
        ensures a[i] != a[j]
      {
        assert (a + b)[i] == a[i] && (a + b)[j] == a[j];
      }
      forall i, j | 0 <= i < j < |b|
        ensures b[i] != b[j]
      {
        assert (a + b)[|a| + i] == b[i] && (a + b)[|a| + j] == b[j];
      }
    }
    if Distinct(a) && Distinct(b) {
      forall i, j | 0 <= i < j < |a + b|
        ensures (a + b)[i] != (a + b)[j]
      {
        assert i < |a| <= j ==> (a + b)[j] in b;
      }
    }
  }

  // ---------------------------------------------------------------- rebuilding the registry

  /** The events that a controller tracks, already filtered. */
  datatype TrackedEvent = Advertised(obj: CoatyObject) | Deadvertised(ids: seq<Uuid>)

  /** What an observer knows from the changes emitted so far. */
  type View = map<Uuid, CoatyObject>

  function Observe(view: View, info: Option<LifecycleInfo>): View {
    match info
    case None => view
    case Some(Added(objs)) => Noted(view, objs)
    case Some(Changed(objs)) => Noted(view, objs)
    case Some(Removed(objs)) => view - set o <- objs :: o.objectId
  }

  function Noted(view: View, objs: seq<CoatyObject>): View
    decreases objs
  {
    if objs == [] then view else Noted(view[objs[0].objectId := objs[0]], objs[1..])
  }

  /** The registry and the observer's view after some events. */
  ghost function Track(events: seq<TrackedEvent>): (Registry, View) {
    if events == [] then ([], map[])
    else
      var (registry, view) := Track(events[..|events| - 1]);
      match events[|events| - 1]
      case Advertised(obj) => (Set(registry, obj), Observe(view, InfoOnAdd(registry, obj)))
      case Deadvertised(ids) => (WithoutAll(registry, ids), Observe(view, InfoOnRemove(registry, ids)))
  }

  ghost predicate SameObjects(view: View, registry: Registry) {
    && (forall id :: id in view <==> Get(registry, id).Some?)
    && (forall id <- view :: DeepEqual(view[id], Get(registry, id).value))
  }

  lemma SetMeans(registry: Registry, obj: CoatyObject)
    requires Valid(registry) && WellFormed(obj.properties)
    ensures Valid(Set(registry, obj))
    ensures forall id :: Get(Set(registry, obj), id) == if id == obj.objectId then Some(obj) else Get(registry, id)
  {
    var i := Position(registry, obj.objectId);
    var r := Set(registry, obj);
    forall id
      ensures Get(r, id) == if id == obj.objectId then Some(obj) else Get(registry, id)
    {
      SamePosition(r, id, if id == obj.objectId then i else Position(registry, id), |registry|);
    }
  }

  lemma SamePosition(registry: Registry, id: Uuid, i: nat, n: nat)
    requires n <= |registry| <= n + 1 && i <= n
    requires forall k :: 0 <= k < i ==> registry[k].objectId != id
    requires i < |registry| ==> registry[i].objectId == id || (i == n && i + 1 == |registry|)
    ensures Position(registry, id) == if i < |registry| && registry[i].objectId == id then i else |registry|
  {
  }

  lemma GetMeans(registry: Registry, id: Uuid)
    requires Valid(registry)
    ensures forall o :: Get(registry, id) == Some(o) <==> o in registry && o.objectId == id
  {
    forall o | o in registry && o.objectId == id
      ensures Get(registry, id) == Some(o)
    {
      PositionOf(registry, o);
    }
  }

  /** Folding the emitted changes rebuilds the registry up to deep equality. */
  lemma {:induction false} ObserverRebuildsRegistry(events: seq<TrackedEvent>)
    requires forall e <- events :: e.Advertised? ==> WellFormed(e.obj.properties)
    ensures Valid(Track(events).0) && SameObjects(Track(events).1, Track(events).0)
  {
    if events != [] {
      var before, e := events[..|events| - 1], events[|events| - 1];
      hide Valid, SameObjects, Set, Observe, WithoutAll;
      ObserverRebuildsRegistry(before);
      var (registry, view) := Track(before);
      match e
      case Advertised(obj) =>
        AdvertiseObserved(registry, view, obj);
      case Deadvertised(ids) =>
        RemovalObserved(registry, view, ids);
    }
  }

  lemma AdvertiseObserved(registry: Registry, view: View, obj: CoatyObject)
    requires Valid(registry) && SameObjects(view, registry) && WellFormed(obj.properties)
    ensures Valid(Set(registry, obj)) && SameObjects(Observe(view, InfoOnAdd(registry, obj)), Set(registry, obj))
  {
    hide Valid, Get, Set;
    SetMeans(registry, obj);
    GetMeans(registry, obj.objectId);
    assert Noted(view, [obj]) == view[obj.objectId := obj];
  }

  lemma RemovalObserved(registry: Registry, view: View, ids: seq<Uuid>)
    requires Valid(registry) && SameObjects(view, registry)
    ensures Valid(WithoutAll(registry, ids))
    ensures SameObjects(Observe(view, InfoOnRemove(registry, ids)), WithoutAll(registry, ids))
  {
    hide Valid, Get, Listed, DeepEqual, ReportedAll, WithoutAll;
    RemovesListed(registry, ids);
    var left, gone := WithoutAll(registry, ids), ReportedAll(registry, ids);
    var after := Observe(view, InfoOnRemove(registry, ids));
    assert after == view - set o <- gone :: o.objectId;
    forall id
      ensures id in after <==> Get(left, id).Some?
      ensures id in after ==> DeepEqual(after[id], Get(left, id).value)
    {
      GetMeans(registry, id);
      GetMeans(left, id);
    }
  }

  /**
   * Every change is news to an observer: an object is reported as added iff its id is unknown,
   * as changed iff it differs from the one known, and not at all iff it is known as it is.
   */
  lemma AdvertisedIsNews(events: seq<TrackedEvent>, obj: CoatyObject)
    requires forall e <- events :: e.Advertised? ==> WellFormed(e.obj.properties)
    ensures var (registry, view) := Track(events);
      var info := InfoOnAdd(registry, obj);
      && (info == Some(Added([obj])) <==> obj.objectId !in view)
      && (info == Some(Changed([obj])) <==> obj.objectId in view && !DeepEqual(obj, view[obj.objectId]))
      && (info == None <==> obj.objectId in view && DeepEqual(obj, view[obj.objectId]))
  {
    hide Valid, Get;
    ObserverRebuildsRegistry(events);
  }

  /** What is reported as removed is known, and it is exactly what is listed, by its own or its parent's id. */
  lemma DeadvertisedIsNews(events: seq<TrackedEvent>, ids: seq<Uuid>)
    requires forall e <- events :: e.Advertised? ==> WellFormed(e.obj.properties)
    ensures var (registry, view) := Track(events);
      match InfoOnRemove(registry, ids)
      case None => forall id <- view :: !Listed(view[id], ids)
      case Some(info) =>
        && info.Removed? && info.removed != []
        && forall id :: (exists o <- info.removed :: o.objectId == id) <==> id in view && Listed(view[id], ids)
  {
    hide Valid, Get, ReportedAll;
    ObserverRebuildsRegistry(events);
    var (registry, view) := Track(events);
    RemovesListed(registry, ids);
    var gone := ReportedAll(registry, ids);
    forall id
      ensures (exists o <- gone :: o.objectId == id) <==> id in view && Listed(view[id], ids)
    {
      GetMeans(registry, id);
    }
    if gone == [] {
      forall id | id in view
        ensures !Listed(view[id], ids)
      {
        assert !exists o <- gone :: o.objectId == id;
      }
    }
  }
}

/** Deep equality, containment and cloning of JavaScript values that are JSON trees. */
module Deep {
  import opened Prelude

  datatype Primitive = Undefined | Null | Bool(b: bool) | Number(n: real) | Text(s: string)

  /** A value; objects have an identity and own properties in their order. */
  datatype Json = Prim(p: Primitive) | Arr(items: seq<Json>) | Obj(ref: nat, members: seq<Member>)

  datatype Member = Member(key: string, value: Json)

  /** What a value stands for when the order of properties and the identity of objects do not matter. */
  datatype Tree = Leaf(p: Primitive) | List(items: seq<Tree>) | Record(fields: map<string, Tree>)

  function Meaning(v: Json): Tree {
    match v
    case Prim(p) => Leaf(p)
    case Arr(items) => List(Meanings(items))
    case Obj(_, members) => Record(Fields(members))
  }

  function Meanings(items: seq<Json>): seq<Tree> {
    if items == [] then [] else [Meaning(items[0])] + Meanings(items[1..])
  }

  function Fields(members: seq<Member>): map<string, Tree> {
    if members == [] then map[] else Fields(members[1..])[members[0].key := Meaning(members[0].value)]
  }

  predicate HasOwnProperty(members: seq<Member>, key: string) {
    exists m <- members :: m.key == key
  }

  /** Property access; missing properties are undefined. */
  function Property(members: seq<Member>, key: string): Json {
    if members == [] then Prim(Undefined)
    else if members[0].key == key then members[0].value else Property(members[1..], key)
  }

  /** No object has two properties of the same name. */
  ghost predicate WellFormed(v: Json) {
    match v
    case Prim(_) => true
    case Arr(items) => forall item <- items :: WellFormed(item)
    case Obj(_, members) => DistinctKeys(members) && forall m <- members :: WellFormed(m.value)
  }

  ghost predicate DistinctKeys(members: seq<Member>) {
    forall i, j :: 0 <= i < j < |members| ==> members[i].key != members[j].key
  }

  ghost function Keys(members: seq<Member>): set<string> {
    set m <- members :: m.key
  }

  // ---------------------------------------------------------------- equals

  lemma {:induction false} MeaningsAt(items: seq<Json>)
    ensures |Meanings(items)| == |items|
    ensures forall i :: 0 <= i < |items| ==> Meanings(items)[i] == Meaning(items[i])
  {
    if items != [] {
      MeaningsAt(items[1..]);
    }
  }

  lemma {:induction false} FieldsAt(members: seq<Member>)
    requires DistinctKeys(members)
    ensures Fields(members).Keys == Keys(members)
    ensures forall i :: 0 <= i < |members| ==> Fields(members)[members[i].key] == Meaning(members[i].value)
  {
    if members != [] {
      FieldsAt(members[1..]);
      assert members == [members[0]] + members[1..];
      forall i | 0 < i < |members|
        ensures Fields(members)[members[i].key] == Meaning(members[i].value)
      {
        assert members[i] == members[1..][i - 1];
      }
    }
  }

  lemma {:induction false} PropertyAt(members: seq<Member>, key: string)
    requires HasOwnProperty(members, key)
    ensures Member(key, Property(members, key)) in members
  {
    if members[0].key != key {
      PropertyAt(members[1..], key);
    }
  }

  lemma {:induction false} CountKeys(members: seq<Member>)
    requires DistinctKeys(members)
    ensures |Keys(members)| == |members|
  {
    if members != [] {
      var rest := members[1..];
      CountKeys(rest);
      assert members == [members[0]] + rest;
      assert Keys(members) == {members[0].key} + Keys(rest);
      assert members[0].key !in Keys(rest);
    }
  }

  /** Objects with equally many keys, all of them shared, have the same keys. */
  lemma SameKeys(a: seq<Member>, b: seq<Member>)
    requires DistinctKeys(a) && DistinctKeys(b) && |a| == |b| && Keys(a) <= Keys(b)
    ensures Keys(a) == Keys(b)
  {
    CountKeys(a);
    CountKeys(b);
    SubsetOfSameSize(Keys(a), Keys(b));
  }

  lemma SubsetOfSameSize<T>(a: set<T>, b: set<T>)
    requires a <= b && |a| == |b|
    ensures a == b
  {
    assert b == a + (b - a);
  }

  method Equals(a: Json, b: Json) returns (r: bool)
    requires WellFormed(a) && WellFormed(b)
    ensures r <==> Meaning(a) == Meaning(b)
    decreases a, 1
  {
    match (a, b) {
      case (Prim(p), Prim(q)) => r := p == q;
      case (Arr(items), Arr(others)) => r := EqualItems(items, others);
      case (Obj(_, members), Obj(_, others)) => r := EqualMembers(members, others);
      case _ => r := false;
    }
  }

  method EqualItems(a: seq<Json>, b: seq<Json>) returns (r: bool)
    requires forall v <- a :: WellFormed(v)
    requires forall v <- b :: WellFormed(v)
    ensures r <==> Meanings(a) == Meanings(b)
    decreases a, 0
  {
    MeaningsAt(a);
    MeaningsAt(b);
    if |a| != |b| {
      return false;
    }
    for i := 0 to |a|
      invariant forall k :: 0 <= k < i ==> Meaning(a[k]) == Meaning(b[k])
    {
      var equal := Equals(a[i], b[i]);
      if !equal {
        assert Meanings(a)[i] != Meanings(b)[i];
        return false;
      }
    }
    assert Meanings(a) == Meanings(b);
    return true;
  }

  lemma PropertyMeans(members: seq<Member>, key: string)
    requires DistinctKeys(members)
    ensures HasOwnProperty(members, key) <==> key in Fields(members)
    ensures key in Fields(members) ==>
              Member(key, Property(members, key)) in members && Fields(members)[key] == Meaning(Property(members, key))
  {
    FieldsAt(members);
    if HasOwnProperty(members, key) {
      PropertyAt(members, key);
    }
  }

  lemma SameFields(a: seq<Member>, b: seq<Member>)
    requires DistinctKeys(a) && DistinctKeys(b) && |a| == |b|
    requires forall m <- a :: m.key in Fields(b) && Fields(b)[m.key] == Meaning(m.value)
    ensures Fields(a) == Fields(b)
  {
    hide Fields, Meaning, DistinctKeys;
    FieldsAt(a);
    FieldsAt(b);
    SameKeys(a, b);
    forall key | key in Fields(a)
      ensures Fields(a)[key] == Fields(b)[key]
    {
      var m :| m in a && m.key == key;
    }
  }

  lemma SameFieldsCount(a: seq<Member>, b: seq<Member>)
    requires DistinctKeys(a) && DistinctKeys(b) && Fields(a) == Fields(b)
    ensures |a| == |b|
    ensures forall m <- a :: m.key in Fields(b) && Fields(b)[m.key] == Meaning(m.value)
  {
    FieldsAt(a);
    FieldsAt(b);
    CountKeys(a);
    CountKeys(b);
  }

  method EqualMembers(a: seq<Member>, b: seq<Member>) returns (r: bool)
    requires DistinctKeys(a) && forall m <- a :: WellFormed(m.value)
    requires DistinctKeys(b) && forall m <- b :: WellFormed(m.value)
    ensures r <==> Fields(a) == Fields(b)
    decreases a, 0
  {
    hide Fields, Property, HasOwnProperty, DistinctKeys, Meaning, WellFormed;
    if Fields(a) == Fields(b) {
      SameFieldsCount(a, b);
    }
    if |a| != |b| {
      return false;
    }
    for i := 0 to |a|
      invariant forall k :: 0 <= k < i ==> a[k].key in Fields(b)
    {
      PropertyMeans(b, a[i].key);
      if !HasOwnProperty(b, a[i].key) {
        return false;
      }
    }
    for i := 0 to |a|
      invariant forall k :: 0 <= k < i ==> Fields(b)[a[k].key] == Meaning(a[k].value)
    {
      PropertyMeans(b, a[i].key);
      var equal := Equals(a[i].value, Property(b, a[i].key));
      if !equal {
        return false;
      }
    }
    SameFields(a, b);
    return true;
  }

  // ---------------------------------------------------------------- clone

  /** What a copy stands for: undefined properties are dropped, undefined array items become null. */
  ghost function Pruned(t: Tree): Tree {
    match t
    case Leaf(_) => t
    case List(items) =>
      List(seq(|items|, i requires 0 <= i < |items| =>
        if items[i] == Leaf(Undefined) then Leaf(Null) else Pruned(items[i])))
    case Record(fields) => Record(map key | key in fields && fields[key] != Leaf(Undefined) :: Pruned(fields[key]))
  }

  /** The identities of all objects inside a value, in the order they are visited. */
  function References(v: Json): seq<nat> {
    match v
    case Prim(_) => []
    case Arr(items) => ItemReferences(items)
    case Obj(ref, members) => [ref] + MemberReferences(members)
  }

  function ItemReferences(items: seq<Json>): seq<nat> {
    if items == [] then [] else References(items[0]) + ItemReferences(items[1..])
  }

  function MemberReferences(members: seq<Member>): seq<nat> {
    if members == [] then [] else References(members[0].value) + MemberReferences(members[1..])
  }

  /** No identity comes twice or is among those already seen. */
  predicate Unseen(ids: seq<nat>, refs: set<nat>) {
    ids != [] ==> ids[0] !in refs && Unseen(ids[1..], refs + {ids[0]})
  }

  ghost function SetOf(ids: seq<nat>): set<nat> {
    set id <- ids
  }

  lemma {:induction false} UnseenConcat(a: seq<nat>, b: seq<nat>, refs: set<nat>)
    ensures Unseen(a + b, refs) <==> Unseen(a, refs) && Unseen(b, refs + SetOf(a))
    ensures SetOf(a + b) == SetOf(a) + SetOf(b)
  {
    if a == [] {
      assert a + b == b && refs + SetOf(a) == refs;
    } else {
      assert a == [a[0]] + a[1..];
      assert (a + b)[1..] == a[1..] + b;
      UnseenConcat(a[1..], b, refs + {a[0]});
      assert refs + {a[0]} + SetOf(a[1..]) == refs + SetOf(a);
    }
  }

  lemma {:induction false} UnseenIsDistinct(ids: seq<nat>, refs: set<nat>)
    ensures Unseen(ids, refs) <==> Distinct(ids) && SetOf(ids) !! refs
  {
    if ids != [] {
      UnseenIsDistinct(ids[1..], refs + {ids[0]});
      assert ids == [ids[0]] + ids[1..];
      if Distinct(ids[1..]) && ids[0] !in ids[1..] {
        forall i, j | 0 <= i < j < |ids|
          ensures ids[i] != ids[j]
        {
          assert ids[j] == ids[1..][j - 1];
        }
      }
      if Distinct(ids) {
        forall j | 0 <= j < |ids[1..]|
          ensures ids[1..][j] != ids[0]
        {
          assert ids[1..][j] == ids[j + 1];
        }
      }
    }
  }

  lemma ItemReferencesFirst(items: seq<Json>)
    requires items != []
    ensures ItemReferences(items) == References(items[0]) + ItemReferences(items[1..])
  {
  }

  lemma {:induction false} ItemReferencesConcat(a: seq<Json>, b: seq<Json>)
    ensures ItemReferences(a + b) == ItemReferences(a) + ItemReferences(b)
  {
    if a == [] {
      assert a + b == b;
    } else {
      hide ItemReferences, References;
      ItemReferencesConcat(a[1..], b);
      DropFirst(a, b);
      ItemReferencesFirst(a);
      ItemReferencesFirst(a + b);
      Associative(References(a[0]), ItemReferences(a[1..]), ItemReferences(b));
    }
  }

  lemma MemberReferencesFirst(members: seq<Member>)
    requires members != []
    ensures MemberReferences(members) == References(members[0].value) + MemberReferences(members[1..])
  {
  }

  lemma {:induction false} MemberReferencesConcat(a: seq<Member>, b: seq<Member>)
    ensures MemberReferences(a + b) == MemberReferences(a) + MemberReferences(b)
  {
    if a == [] {
      assert a + b == b;
    } else {
      hide MemberReferences, References;
      MemberReferencesConcat(a[1..], b);
      DropFirst(a, b);
      MemberReferencesFirst(a);
      MemberReferencesFirst(a + b);
      Associative(References(a[0].value), MemberReferences(a[1..]), MemberReferences(b));
    }
  }

  /** How far `ids + more` is unseen, where `all` goes on after that. */
  lemma UnseenSteps(ids: seq<nat>, more: seq<nat>, rest: seq<nat>, refs: set<nat>)
    ensures Unseen(ids + more, refs) <==> Unseen(ids, refs) && Unseen(more, refs + SetOf(ids))
    ensures SetOf(ids + more) == SetOf(ids) + SetOf(more)
    ensures Unseen(ids + more + rest, refs) ==> Unseen(ids + more, refs)
  {
    UnseenConcat(ids, more, refs);
    UnseenConcat(ids + more, rest, refs);
  }

  lemma SplitItems(items: seq<Json>, i: nat, refs: set<nat>)
    requires i < |items|
    ensures var ids, more := ItemReferences(items[..i]), References(items[i]);
      && ItemReferences(items[..i + 1]) == ids + more
      && (Unseen(ids + more, refs) <==> Unseen(ids, refs) && Unseen(more, refs + SetOf(ids)))
      && SetOf(ids + more) == SetOf(ids) + SetOf(more)
      && (Unseen(ItemReferences(items), refs) ==> Unseen(ids + more, refs))
  {
    assert items[..i + 1] == items[..i] + [items[i]] && items == items[..i + 1] + items[i + 1..];
    ItemReferencesConcat(items[..i], [items[i]]);
    ItemReferencesConcat(items[..i + 1], items[i + 1..]);
    var one := [items[i]];
    assert one[1..] == [] && References(items[i]) + [] == References(items[i]);
    UnseenSteps(ItemReferences(items[..i]), References(items[i]), ItemReferences(items[i + 1..]), refs);
  }

  lemma SplitMembers(members: seq<Member>, i: nat, refs: set<nat>)
    requires i < |members|
    ensures var ids, more := MemberReferences(members[..i]), References(members[i].value);
      && MemberReferences(members[..i + 1]) == ids + more
      && (Unseen(ids + more, refs) <==> Unseen(ids, refs) && Unseen(more, refs + SetOf(ids)))
      && SetOf(ids + more) == SetOf(ids) + SetOf(more)
      && (Unseen(MemberReferences(members), refs) ==> Unseen(ids + more, refs))
  {
    assert members[..i + 1] == members[..i] + [members[i]] && members == members[..i + 1] + members[i + 1..];
    MemberReferencesConcat(members[..i], [members[i]]);
    MemberReferencesConcat(members[..i + 1], members[i + 1..]);
    var one := [members[i]];
    assert one[1..] == [] && References(members[i].value) + [] == References(members[i].value);
    UnseenSteps(MemberReferences(members[..i]), References(members[i].value), MemberReferences(members[i + 1..]), refs);
  }

  lemma {:induction false} FieldsAppend(members: seq<Member>, m: Member)
    requires !HasOwnProperty(members, m.key)
    ensures m.key !in Fields(members) && Fields(members + [m]) == Fields(members)[m.key := Meaning(m.value)]
  {
    if members == [] {
      assert [] + [m] == [m] && [m][1..] == [];
    } else {
      assert members[0] in members && forall n <- members[1..] :: n in members;
      FieldsAppend(members[1..], m);
      assert (members + [m])[1..] == members[1..] + [m];
    }
  }

  lemma AddField(members: seq<Member>, i: nat)
    requires i < |members| && DistinctKeys(members)
    ensures var before, m := Fields(members[..i]), members[i];
      && m.key !in before && Fields(members[..i + 1]) == before[m.key := Meaning(m.value)]
  {
    assert members[..i + 1] == members[..i] + [members[i]];
    FieldsAppend(members[..i], members[i]);
  }

  lemma PruneField(fields: map<string, Tree>, key: string, t: Tree)
    requires key !in fields
    ensures Pruned(Record(fields[key := t])).fields ==
            if t == Leaf(Undefined) then Pruned(Record(fields)).fields
                else Pruned(Record(fields)).fields[key := Pruned(t)]
    ensures Pruned(t) == Leaf(Undefined) <==> t == Leaf(Undefined)
  {
  }

  lemma PrunedUndefined(t: Tree)
    ensures Pruned(t) == Leaf(Undefined) <==> t == Leaf(Undefined)
  {
  }

  lemma NoItems(refs: set<nat>)
    ensures ItemReferences([]) == [] && Unseen([], refs) && refs + SetOf([]) == refs
  {
  }

  /** Copies a value; `None` is the exception for an object that was seen before. */
  method CloneDeep(v: Json, refs: set<nat>) returns (copy: Option<Tree>, seen: set<nat>)
    requires WellFormed(v)
    ensures copy.Some? <==> Unseen(References(v), refs)
    ensures copy.Some? ==> copy.value == Pruned(Meaning(v)) && seen == refs + SetOf(References(v))
    decreases v, 1
  {
    match v {
      case Prim(p) =>
        return Some(Leaf(p)), refs;
      case Arr(items) =>
        var copies;
        copies, seen := CloneItems(items, refs);
        MeaningsAt(items);
        if copies.None? {
          return None, seen;
        }
        copy := Some(List(copies.value));
        assert copies.value == Pruned(Meaning(v)).items;
      case Obj(ref, members) =>
        if ref in refs {
          return None, refs;
        }
        var cloned;
        cloned, seen := CloneMembers(members, refs + {ref});
        assert References(v)[1..] == MemberReferences(members);
        if cloned.None? {
          return None, seen;
        }
        UnseenConcat([ref], MemberReferences(members), refs);
        copy := Some(Record(cloned.value));
    }
  }

  method CloneItems(items: seq<Json>, refs: set<nat>) returns (copies: Option<seq<Tree>>, seen: set<nat>)
    requires forall item <- items :: WellFormed(item)
    ensures copies.Some? <==> Unseen(ItemReferences(items), refs)
    ensures copies.Some? ==> seen == refs + SetOf(ItemReferences(items)) && |copies.value| == |items|
    ensures copies.Some? ==> forall i :: 0 <= i < |items| ==>
              copies.value[i] == if Meaning(items[i]) == Leaf(Undefined) then Leaf(Null) else Pruned(Meaning(items[i]))
    decreases items, 0
  {
    hide ItemReferences, References, Unseen, SetOf, Meaning, Pruned, WellFormed;
    seen := refs;
    var done: seq<Tree> := [];
    NoItems(refs);
    assert items[..0] == [];
    for i := 0 to |items|
      invariant |done| == i && Unseen(ItemReferences(items[..i]), refs)
      invariant seen == refs + SetOf(ItemReferences(items[..i]))
      invariant forall k :: 0 <= k < i ==>
                  done[k] == if Meaning(items[k]) == Leaf(Undefined) then Leaf(Null) else Pruned(Meaning(items[k]))
    {
      SplitItems(items, i, refs);
      PrunedUndefined(Meaning(items[i]));
      assert refs + SetOf(ItemReferences(items[..i])) + SetOf(References(items[i])) ==
             refs + (SetOf(ItemReferences(items[..i])) + SetOf(References(items[i])));
      var copy;
      copy, seen := CloneDeep(items[i], seen);
      if copy.None? {
        return None, seen;
      }
      done := done + [if copy.value == Leaf(Undefined) then Leaf(Null) else copy.value];
    }
    assert items[..|items|] == items;
    return Some(done), seen;
  }

  method CloneMembers(members: seq<Member>, refs: set<nat>) returns (cloned: Option<map<string, Tree>>, seen: set<nat>)
    requires DistinctKeys(members) && forall m <- members :: WellFormed(m.value)
    ensures cloned.Some? <==> Unseen(MemberReferences(members), refs)
    ensures cloned.Some? ==> seen == refs + SetOf(MemberReferences(members))
    ensures cloned.Some? ==> Record(cloned.value) == Pruned(Record(Fields(members)))
    decreases members, 0
  {
    seen := refs;
    var done: map<string, Tree> := map[];
    assert members[..0] == [];
    for i := 0 to |members|
      invariant Unseen(MemberReferences(members[..i]), refs)
      invariant seen == refs + SetOf(MemberReferences(members[..i]))
      invariant Record(done) == Pruned(Record(Fields(members[..i])))
    {
      SplitMembers(members, i, refs);
      var value;
      value, seen := CloneDeep(members[i].value, seen);
      if value.None? {
        return None, seen;
      }
      AddField(members, i);
      PruneField(Fields(members[..i]), members[i].key, Meaning(members[i].value));
      if value.value != Leaf(Undefined) {
        done := done[members[i].key := value.value];
      }
    }
    assert members[..|members|] == members;
    return Some(done), seen;
  }

  /** Copying succeeds exactly if no object occurs twice; the copy is the value without undefined parts. */
  method Clone(v: Json) returns (copy: Option<Tree>)
    requires WellFormed(v)
    ensures copy.Some? <==> Distinct(References(v))
    ensures copy.Some? ==> copy.value == Pruned(Meaning(v))
  {
    UnseenIsDistinct(References(v), {});
    var seen;
    copy, seen := CloneDeep(v, {});
  }

  /** Nothing inside the value is undefined. */
  ghost predicate IsJson(t: Tree) {
    match t
    case Leaf(_) => true
    case List(items) => forall item <- items :: item != Leaf(Undefined) && IsJson(item)
    case Record(fields) => forall key <- fields :: fields[key] != Leaf(Undefined) && IsJson(fields[key])
  }

  /** A copy equals its original exactly if nothing inside the original is undefined. */
  lemma {:induction false} CopyIsEqual(t: Tree)
    ensures Pruned(t) == t <==> IsJson(t)
  {
    match t
    case Leaf(_) =>
    case List(items) =>
      forall i | 0 <= i < |items|
        ensures Pruned(items[i]) == items[i] <==> IsJson(items[i])
      {
        CopyIsEqual(items[i]);
      }
      if Pruned(t) == t {
        forall i | 0 <= i < |items|
          ensures items[i] != Leaf(Undefined) && IsJson(items[i])
        {
          assert Pruned(t).items[i] == items[i];
        }
      }
      if IsJson(t) {
        assert Pruned(t).items == items;
      }
    case Record(fields) =>
      forall key | key in fields
        ensures Pruned(fields[key]) == fields[key] <==> IsJson(fields[key])
      {
        CopyIsEqual(fields[key]);
      }
      if Pruned(t) == t {
        forall key | key in fields
          ensures fields[key] != Leaf(Undefined) && IsJson(fields[key])
        {
          assert key in Pruned(t).fields && Pruned(t).fields[key] == fields[key];
        }
      }
      if IsJson(t) {
        assert Pruned(t).fields == fields;
      }
  }

  /** Nothing inside a copy is undefined, so that copying it again changes nothing. */
  lemma {:induction false} CopyIsJson(t: Tree)
    ensures IsJson(Pruned(t)) && Pruned(Pruned(t)) == Pruned(t)
  {
    match t {
      case Leaf(_) =>
      case List(items) =>
        forall i | 0 <= i < |items|
          ensures IsJson(Pruned(items[i]))
        {
          CopyIsJson(items[i]);
        }
      case Record(fields) =>
        forall key | key in fields
          ensures IsJson(Pruned(fields[key]))
        {
          CopyIsJson(fields[key]);
        }
    }
    CopyIsEqual(Pruned(t));
  }

  /** One step of access into a value. */
  datatype Access = Index(i: nat) | Key(k: string)

  /** Access along a path; what is missing is undefined. */
  ghost function Lookup(t: Tree, path: seq<Access>): Tree
    decreases |path|
  {
    if path == [] then t
    else match (t, path[0])
      case (List(items), Index(i)) => if i < |items| then Lookup(items[i], path[1..]) else Leaf(Undefined)
      case (Record(fields), Key(k)) => if k in fields then Lookup(fields[k], path[1..]) else Leaf(Undefined)
      case _ => Leaf(Undefined)
  }

  /**
   * A copy holds the same at every path: the same primitive values, arrays of the same length,
   * and objects with the same keys but those of undefined properties. What is undefined stays
   * so, except for array items, which become null.
   */
  lemma {:induction false} CopyHoldsTheSame(t: Tree, path: seq<Access>)
    ensures var v, c := Lookup(t, path), Lookup(Pruned(t), path);
      match v
      case Leaf(Undefined) => c == Leaf(Undefined) || (c == Leaf(Null) && path != [] && path[|path| - 1].Index?)
      case Leaf(_) => c == v
      case List(items) => c.List? && |c.items| == |items|
      case Record(fields) =>
        c.Record? && forall k :: k in c.fields <==> k in fields && fields[k] != Leaf(Undefined)
    decreases |path|
  {
    if path != [] {
      match (t, path[0])
      case (List(items), Index(i)) =>
        if i < |items| {
          CopyHoldsTheSame(items[i], path[1..]);
          NothingInLeaf(Undefined, path[1..]);
          NothingInLeaf(Null, path[1..]);
        }
      case (Record(fields), Key(k)) =>
        if k in fields {
          CopyHoldsTheSame(fields[k], path[1..]);
          NothingInLeaf(Undefined, path[1..]);
        }
      case _ =>
    }
  }

  lemma NothingInLeaf(p: Primitive, path: seq<Access>)
    ensures Lookup(Leaf(p), path) == if path == [] then Leaf(p) else Leaf(Undefined)
  {
  }

  /** An object that occurs twice is refused, although nothing is circular. */
  lemma SharedObjectIsRefused()
    ensures var shared := Obj(1, []);
      var v := Obj(0, [Member("a", shared), Member("b", shared)]);
      WellFormed(v) && IsJson(Meaning(v)) && !Distinct(References(v))
  {
    var shared := Obj(1, []);
    var v := Obj(0, [Member("a", shared), Member("b", shared)]);
    var b := [Member("b", shared)];
    assert v.members[1..] == b && b[1..] == [];
    assert Meaning(shared) == Record(map[]) && Fields(b) == map["b" := Record(map[])];
    assert Meaning(v) == Record(map["b" := Record(map[]), "a" := Record(map[])]);
    assert References(shared) == [1] && MemberReferences(b) == [1];
    assert References(v) == [0, 1, 1];
    assert References(v)[1] == References(v)[2];
  }

  // ---------------------------------------------------------------- contains

  /** The result of a containment check, or the type error of listing the keys of null. */
  datatype Answer = Yes | No | Throws

  function Answered(b: bool): Answer {
    if b then Yes else No
  }

  function Contains(a: Json, b: Json): Answer {
    Inside(a, b, true)
  }

  function Inside(x: Json, y: Json, isToplevel: bool): Answer
    decreases y, x
  {
    match x
    case Arr(items) =>
      if y.Arr? then EachInside(items, y.items)
      else Answered(isToplevel && y.Prim? && y in items)
    case Obj(_, members) =>
      (match y
       case Prim(p) => if p == Null then Throws else No
       case Arr(others) => EachIndexInside(members, others, 0)
       case Obj(_, others) => EachMemberInside(members, others))
    case Prim(_) => Answered(x == y)
  }

  /** Every item of `ys` is inside some item of `xs`. */
  function EachInside(xs: seq<Json>, ys: seq<Json>): Answer
    decreases ys, xs
  {
    if ys == [] then Yes
    else
      var first := InsideSome(xs, ys[0]);
      if first == Yes then EachInside(xs, ys[1..]) else first
  }

  function InsideSome(xs: seq<Json>, y: Json): Answer
    decreases y, xs
  {
    if xs == [] then No
    else
      var first := Inside(xs[0], y, false);
      if first == No then InsideSome(xs[1..], y) else first
  }

  function MemberInside(members: seq<Member>, key: string, y: Json): Answer
    decreases y, members
  {
    if HasOwnProperty(members, key) then
      PropertyAt(members, key);
      Inside(Property(members, key), y, false)
    else No
  }

  function EachMemberInside(members: seq<Member>, others: seq<Member>): Answer
    decreases others, members
  {
    if others == [] then Yes
    else
      var first := MemberInside(members, others[0].key, others[0].value);
      if first == Yes then EachMemberInside(members, others[1..]) else first
  }

  /** The keys of an array are its indices. */
  function EachIndexInside(members: seq<Member>, others: seq<Json>, index: nat): Answer
    decreases others, members
  {
    if others == [] then Yes
    else
      var first := MemberInside(members, Decimal(index), others[0]);
      if first == Yes then EachIndexInside(members, others[1..], index + 1) else first
  }

  lemma {:induction false} EachInsideMeans(xs: seq<Json>, ys: seq<Json>)
    ensures EachInside(xs, ys) == Yes ==> forall y <- ys :: InsideSome(xs, y) == Yes
    ensures EachInside(xs, ys) != Yes ==> exists y <- ys :: InsideSome(xs, y) == EachInside(xs, ys)
  {
    if ys != [] {
      var rest := ys[1..];
      EachInsideMeans(xs, rest);
      assert forall y :: y in ys <==> y == ys[0] || y in rest;
      var first := InsideSome(xs, ys[0]);
      assert EachInside(xs, ys) == if first == Yes then EachInside(xs, rest) else first;
      if EachInside(xs, ys) == Yes {
        forall y | y in ys
          ensures InsideSome(xs, y) == Yes
        {
          assert y == ys[0] || y in rest;
        }
      } else if first == Yes {
        var y :| y in rest && InsideSome(xs, y) == EachInside(xs, ys);
        assert y in ys;
      }
    }
  }

  lemma {:induction false} InsideSomeMeans(xs: seq<Json>, y: Json)
    ensures InsideSome(xs, y) == No ==> forall x <- xs :: Inside(x, y, false) == No
    ensures InsideSome(xs, y) != No ==> exists x <- xs :: Inside(x, y, false) == InsideSome(xs, y)
  {
    if xs != [] {
      var rest := xs[1..];
      InsideSomeMeans(rest, y);
      assert forall x :: x in xs <==> x == xs[0] || x in rest;
      var first := Inside(xs[0], y, false);
      assert InsideSome(xs, y) == if first == No then InsideSome(rest, y) else first;
      if InsideSome(xs, y) == No {
        forall x | x in xs
          ensures Inside(x, y, false) == No
        {
          assert x == xs[0] || x in rest;
        }
      } else if first == No {
        var x :| x in rest && Inside(x, y, false) == InsideSome(xs, y);
        assert x in xs;
      }
    }
  }

  lemma {:induction false} EachMemberMeans(members: seq<Member>, others: seq<Member>)
    ensures EachMemberInside(members, others) == Yes ==>
              forall m <- others :: MemberInside(members, m.key, m.value) == Yes
    ensures EachMemberInside(members, others) != Yes ==>
              exists m <- others :: MemberInside(members, m.key, m.value) == EachMemberInside(members, others)
  {
    if others != [] {
      EachMemberMeans(members, others[1..]);
      assert others == [others[0]] + others[1..];
    }
  }

  lemma {:induction false} EachIndexMeans(members: seq<Member>, others: seq<Json>, index: nat)
    ensures EachIndexInside(members, others, index) != Yes ==>
              exists i :: 0 <= i < |others| && IndexAnswer(members, others, index, i) ==
                          EachIndexInside(members, others, index)
  {
    if others != [] {
      var rest := others[1..];
      EachIndexMeans(members, rest, index + 1);
      var first := IndexAnswer(members, others, index, 0);
      assert EachIndexInside(members, others, index) ==
             if first == Yes then EachIndexInside(members, rest, index + 1) else first;
      if first == Yes && EachIndexInside(members, others, index) != Yes {
        var i :| 0 <= i < |rest| && IndexAnswer(members, rest, index + 1, i) ==
          EachIndexInside(members, rest, index + 1);
        IndexShift(members, others, index, i);
        assert IndexAnswer(members, others, index, i + 1) == EachIndexInside(members, others, index);
      }
    }
  }

  /**
   * What containment means: all items of an array are inside some item each, all properties
   * of an object are inside the properties of the same names, and primitive values are only
   * inside themselves, or inside an array on top level. An array has its indices as keys.
   */
  ghost predicate Within(x: Json, y: Json, isToplevel: bool)
    decreases y
  {
    match (x, y)
    case (Arr(xs), Arr(ys)) => forall v <- ys :: exists u <- xs :: Within(u, v, false)
    case (Arr(xs), Prim(_)) => isToplevel && y in xs
    case (Obj(_, xs), Obj(_, ys)) =>
      forall m <- ys :: HasOwnProperty(xs, m.key) && Within(Property(xs, m.key), m.value, false)
    case (Obj(_, xs), Arr(ys)) => forall i :: 0 <= i < |ys| ==> WithinAt(xs, ys, i)
    case (Prim(p), Prim(q)) => p == q
    case _ => false
  }

  /** The i-th item is within the property named by its index. */
  ghost predicate WithinAt(members: seq<Member>, others: seq<Json>, i: nat)
    requires i < |others|
    decreases others
  {
    HasOwnProperty(members, Decimal(i)) && Within(Property(members, Decimal(i)), others[i], false)
  }

  /** Whether the i-th item, as the property named by its index, is inside the property of that name. */
  function IndexAnswer(members: seq<Member>, others: seq<Json>, index: nat, i: nat): Answer
    requires i < |others|
  {
    MemberInside(members, Decimal(index + i), others[i])
  }

  lemma {:induction false} EachIndexYes(members: seq<Member>, others: seq<Json>, index: nat)
    ensures EachIndexInside(members, others, index) == Yes <==>
            forall i :: 0 <= i < |others| ==> IndexAnswer(members, others, index, i) == Yes
  {
    if others != [] {
      var rest, next := others[1..], index + 1;
      EachIndexYes(members, rest, next);
      EachIndexFirst(members, others, index);
      hide IndexAnswer, EachIndexInside;
      if forall i :: 0 <= i < |others| ==> IndexAnswer(members, others, index, i) == Yes {
        forall i | 0 <= i < |rest|
          ensures IndexAnswer(members, rest, next, i) == Yes
        {
          IndexShift(members, others, index, i);
        }
      }
      if EachIndexInside(members, others, index) == Yes {
        forall i | 0 < i < |others|
          ensures IndexAnswer(members, others, index, i) == Yes
        {
          IndexShift(members, others, index, i - 1);
          assert IndexAnswer(members, rest, next, i - 1) == Yes;
        }
      }
    }
  }

  lemma IndexShift(members: seq<Member>, others: seq<Json>, index: nat, i: nat)
    requires i + 1 < |others|
    ensures IndexAnswer(members, others[1..], index + 1, i) == IndexAnswer(members, others, index, i + 1)
  {
    assert index + 1 + i == index + (i + 1);
  }

  lemma EachIndexFirst(members: seq<Member>, others: seq<Json>, index: nat)
    requires others != []
    ensures EachIndexInside(members, others, index) == Yes <==>
            IndexAnswer(members, others, index, 0) == Yes && EachIndexInside(members, others[1..], index + 1) == Yes
  {
  }

  /** There is no null anywhere in the value. */
  ghost predicate NullFree(v: Json) {
    match v
    case Prim(p) => p != Null
    case Arr(items) => forall item <- items :: NullFree(item)
    case Obj(_, members) => forall m <- members :: NullFree(m.value)
  }

  lemma {:induction false} NullFreeNeverThrows(x: Json, y: Json, isToplevel: bool)
    requires NullFree(y)
    ensures Inside(x, y, isToplevel) != Throws
    decreases y, x
  {
    if x.Arr? && y.Arr? {
      EachInsideMeans(x.items, y.items);
      forall v | v in y.items
        ensures InsideSome(x.items, v) != Throws
      {
        InsideSomeMeans(x.items, v);
        forall u | u in x.items
          ensures Inside(u, v, false) != Throws
        {
          NullFreeNeverThrows(u, v, false);
        }
      }
    } else if x.Obj? && y.Arr? {
      EachIndexMeans(x.members, y.items, 0);
      forall i | 0 <= i < |y.items|
        ensures IndexAnswer(x.members, y.items, 0, i) != Throws
      {
        if HasOwnProperty(x.members, Decimal(i)) {
          NullFreeNeverThrows(Property(x.members, Decimal(i)), y.items[i], false);
        }
      }
    } else if x.Obj? && y.Obj? {
      EachMemberMeans(x.members, y.members);
      forall m | m in y.members
        ensures MemberInside(x.members, m.key, m.value) != Throws
      {
        if HasOwnProperty(x.members, m.key) {
          NullFreeNeverThrows(Property(x.members, m.key), m.value, false);
        }
      }
    }
  }

  /** Unless the check throws, it answers exactly whether one value is within the other. */
  lemma {:induction false} ContainsMeans(x: Json, y: Json, isToplevel: bool)
    ensures Inside(x, y, isToplevel) == Yes ==> Within(x, y, isToplevel)
    ensures Inside(x, y, isToplevel) == No ==> !Within(x, y, isToplevel)
    decreases y, 1
  {
    if x.Arr? && y.Arr? {
      ItemsMean(x.items, y.items);
    } else if x.Obj? && y.Obj? {
      MembersMean(x.members, y.members);
    } else if x.Obj? && y.Arr? {
      hide EachIndexInside, WithinAt;
      IndicesMean(x.members, y.items);
    }
  }

  lemma {:induction false} ItemsMean(xs: seq<Json>, ys: seq<Json>)
    ensures EachInside(xs, ys) == Yes ==> forall v <- ys :: exists u <- xs :: Within(u, v, false)
    ensures EachInside(xs, ys) == No ==> exists v <- ys :: forall u <- xs :: !Within(u, v, false)
    decreases ys, 0
  {
    EachInsideMeans(xs, ys);
    forall v | v in ys
      ensures InsideSome(xs, v) == Yes ==> exists u <- xs :: Within(u, v, false)
      ensures InsideSome(xs, v) == No ==> forall u <- xs :: !Within(u, v, false)
    {
      InsideSomeMeans(xs, v);
      forall u | u in xs
        ensures Inside(u, v, false) == Yes ==> Within(u, v, false)
        ensures Inside(u, v, false) == No ==> !Within(u, v, false)
      {
        ContainsMeans(u, v, false);
      }
    }
  }

  lemma {:induction false} MembersMean(members: seq<Member>, others: seq<Member>)
    ensures EachMemberInside(members, others) == Yes ==>
            forall m <- others :: HasOwnProperty(members, m.key) && Within(Property(members, m.key), m.value, false)
    ensures EachMemberInside(members, others) == No ==>
            exists m <- others :: !(HasOwnProperty(members, m.key) && Within(Property(members, m.key), m.value, false))
    decreases others, 0
  {
    EachMemberMeans(members, others);
    forall m | m in others
      ensures MemberInside(members, m.key, m.value) == Yes ==>
              HasOwnProperty(members, m.key) && Within(Property(members, m.key), m.value, false)
      ensures MemberInside(members, m.key, m.value) == No ==>
              !(HasOwnProperty(members, m.key) && Within(Property(members, m.key), m.value, false))
    {
      MemberMeans(members, m.key, m.value);
    }
  }

  lemma {:induction false} IndicesMean(members: seq<Member>, others: seq<Json>)
    ensures EachIndexInside(members, others, 0) == Yes ==>
              forall i :: 0 <= i < |others| ==> WithinAt(members, others, i)
    ensures EachIndexInside(members, others, 0) == No ==>
              exists i :: 0 <= i < |others| && !WithinAt(members, others, i)
    decreases others, 0
  {
    EachIndexYes(members, others, 0);
    EachIndexMeans(members, others, 0);
    forall i | 0 <= i < |others|
      ensures IndexAnswer(members, others, 0, i) == Yes ==> WithinAt(members, others, i)
      ensures IndexAnswer(members, others, 0, i) == No ==> !WithinAt(members, others, i)
    {
      MemberMeans(members, Decimal(i), others[i]);
    }
  }

  lemma {:induction false} MemberMeans(members: seq<Member>, key: string, y: Json)
    ensures MemberInside(members, key, y) == Yes ==>
            HasOwnProperty(members, key) && Within(Property(members, key), y, false)
    ensures MemberInside(members, key, y) == No ==>
            !(HasOwnProperty(members, key) && Within(Property(members, key), y, false))
    decreases y, 2
  {
    if HasOwnProperty(members, key) {
      ContainsMeans(Property(members, key), y, false);
    }
  }

  lemma SameField(members: seq<Member>, others: seq<Member>, m: Member)
    requires DistinctKeys(members) && DistinctKeys(others) && Fields(members) == Fields(others) && m in others
    ensures HasOwnProperty(members, m.key) && Meaning(Property(members, m.key)) == Meaning(m.value)
    ensures Member(m.key, Property(members, m.key)) in members
  {
    PropertyMeans(members, m.key);
    FieldsAt(others);
  }

  ghost predicate ArrayFree(v: Json) {
    match v
    case Prim(_) => true
    case Arr(_) => false
    case Obj(_, members) => forall m <- members :: ArrayFree(m.value)
  }

  /** Deep equal values contain each other, unless the check throws, for which it takes both null and an array. */
  lemma {:induction false} EqualValuesContained(x: Json, y: Json, isToplevel: bool)
    requires WellFormed(x) && WellFormed(y) && Meaning(x) == Meaning(y)
    ensures Inside(x, y, isToplevel) != No
    ensures NullFree(y) || ArrayFree(y) ==> Inside(x, y, isToplevel) == Yes
    decreases y
  {
    if y.Arr? {
      EachInsideMeans(x.items, y.items);
      MeaningsAt(x.items);
      MeaningsAt(y.items);
      forall i | 0 <= i < |y.items|
        ensures InsideSome(x.items, y.items[i]) != No
      {
        EqualValuesContained(x.items[i], y.items[i], false);
        InsideSomeMeans(x.items, y.items[i]);
      }
      if NullFree(y) {
        NullFreeNeverThrows(x, y, isToplevel);
      }
    } else if y.Obj? {
      EachMemberMeans(x.members, y.members);
      forall m | m in y.members
        ensures MemberInside(x.members, m.key, m.value) != No
        ensures NullFree(y) || ArrayFree(y) ==> MemberInside(x.members, m.key, m.value) == Yes
      {
        SameField(x.members, y.members, m);
        EqualValuesContained(Property(x.members, m.key), m.value, false);
      }
    }
  }

  /** The answer for an array is the answer for its first item that is not inside. */
  lemma {:induction false} ItemDecides(xs: seq<Json>, ys: seq<Json>, i: nat)
    requires i < |ys| && InsideSome(xs, ys[i]) != Yes
    requires forall k | 0 <= k < i :: InsideSome(xs, ys[k]) == Yes
    ensures EachInside(xs, ys) == InsideSome(xs, ys[i])
  {
    if i > 0 {
      ItemDecides(xs, ys[1..], i - 1);
    }
  }

  lemma {:induction false} MemberDecides(members: seq<Member>, others: seq<Member>, i: nat)
    requires i < |others| && MemberInside(members, others[i].key, others[i].value) != Yes
    requires forall k | 0 <= k < i :: MemberInside(members, others[k].key, others[k].value) == Yes
    ensures EachMemberInside(members, others) == MemberInside(members, others[i].key, others[i].value)
  {
    if i > 0 {
      MemberDecides(members, others[1..], i - 1);
    }
  }

  /** The first item with null in it. */
  ghost function FirstWithNull(items: seq<Json>): (i: nat)
    requires exists item <- items :: !NullFree(item)
    ensures i < |items| && !NullFree(items[i]) && forall k | 0 <= k < i :: NullFree(items[k])
  {
    if !NullFree(items[0]) then 0
    else
      assert items == [items[0]] + items[1..];
      1 + FirstWithNull(items[1..])
  }

  lemma FirstMemberWithNull(members: seq<Member>) returns (i: nat)
    requires exists m <- members :: !NullFree(m.value)
    ensures i < |members| && !NullFree(members[i].value) && forall k | 0 <= k < i :: NullFree(members[k].value)
  {
    var values := seq(|members|, k requires 0 <= k < |members| => members[k].value);
    var m :| m in members && !NullFree(m.value);
    var at :| 0 <= at < |members| && members[at] == m;
    assert values[at] == m.value;
    i := FirstWithNull(values);
    assert forall k | 0 <= k < i :: NullFree(values[k]) && values[k] == members[k].value;
  }

  /** The properties with one value replaced. */
  function WithValue(members: seq<Member>, i: nat, v: Json): seq<Member>
    requires i < |members|
  {
    members[i := Member(members[i].key, v)]
  }

  lemma PropertyOfReplaced(members: seq<Member>, i: nat, v: Json, k: nat)
    requires DistinctKeys(members) && i < |members| && k < |members|
    ensures DistinctKeys(WithValue(members, i, v))
    ensures HasOwnProperty(WithValue(members, i, v), members[k].key)
    ensures Property(WithValue(members, i, v), members[k].key) == if k == i then v else members[k].value
  {
    var replaced := WithValue(members, i, v);
    assert replaced[k].key == members[k].key;
    PropertyAt(replaced, members[k].key);
    PropertyIs(replaced, k);
  }

  lemma {:induction false} PropertyIs(members: seq<Member>, k: nat)
    requires DistinctKeys(members) && k < |members|
    ensures HasOwnProperty(members, members[k].key) && Property(members, members[k].key) == members[k].value
  {
    if k > 0 {
      PropertyIs(members[1..], k - 1);
    }
  }

  /** An array that makes the check throw at the first item with null. */
  lemma ThrowingItems(items: seq<Json>, i: nat, u: Json)
    requires (forall item <- items :: WellFormed(item)) && i < |items|
    requires Inside(u, items[i], false) == Throws && forall k | 0 <= k < i :: NullFree(items[k])
    ensures EachInside([u] + items, items) == Throws
  {
    var xs := [u] + items;
    assert InsideSome(xs, items[i]) == Throws;
    forall k | 0 <= k < i
      ensures InsideSome(xs, items[k]) == Yes
    {
      InsideSomeMeans(xs, items[k]);
      EqualValuesContained(items[k], items[k], false);
      assert xs[k + 1] == items[k];
      if InsideSome(xs, items[k]) == Throws {
        var v :| v in xs && Inside(v, items[k], false) == Throws;
        NullFreeNeverThrows(v, items[k], false);
      }
    }
    ItemDecides(xs, items, i);
  }

  /** An object that makes the check throw at the first property with null. */
  lemma ThrowingMembers(members: seq<Member>, i: nat, u: Json)
    requires DistinctKeys(members) && (forall m <- members :: WellFormed(m.value)) && i < |members|
    requires Inside(u, members[i].value, false) == Throws && forall k | 0 <= k < i :: NullFree(members[k].value)
    ensures EachMemberInside(WithValue(members, i, u), members) == Throws
  {
    hide WithValue;
    var xs := WithValue(members, i, u);
    PropertyOfReplaced(members, i, u, i);
    assert MemberInside(xs, members[i].key, members[i].value) == Throws;
    forall k | 0 <= k < i
      ensures MemberInside(xs, members[k].key, members[k].value) == Yes
    {
      PropertyOfReplaced(members, i, u, k);
      EqualValuesContained(members[k].value, members[k].value, false);
    }
    MemberDecides(xs, members, i);
  }

  /** For every value with null in it, there is one for which the check throws. */
  lemma {:induction false} Thrower(y: Json) returns (x: Json)
    requires WellFormed(y) && !NullFree(y)
    ensures WellFormed(x) && forall isToplevel :: Inside(x, y, isToplevel) == Throws
    decreases y
  {
    match y
    case Prim(p) =>
      x := Obj(0, []);
    case Arr(items) =>
      var i := FirstWithNull(items);
      var u := Thrower(items[i]);
      ThrowingItems(items, i, u);
      x := Arr([u] + items);
    case Obj(_, members) =>
      var i := FirstMemberWithNull(members);
      var u := Thrower(members[i].value);
      ThrowingMembers(members, i, u);
      PropertyOfReplaced(members, i, u, i);
      x := Obj(0, WithValue(members, i, u));
  }

  /** The check answers for all values whether they contain `y` iff there is no null in `y`. */
  lemma NeverThrowsIffNullFree(y: Json)
    requires WellFormed(y)
    ensures (forall x | WellFormed(x) :: Contains(x, y) != Throws) <==> NullFree(y)
  {
    hide WellFormed, Inside;
    if NullFree(y) {
      forall x | WellFormed(x)
        ensures Contains(x, y) != Throws
      {
        NullFreeNeverThrows(x, y, true);
      }
    } else {
      var x := Thrower(y);
      assert Contains(x, y) == Throws;
    }
  }

  /** An array with an object before null does not contain itself: the check throws. */
  lemma NullThrows()
    ensures var v := Arr([Obj(0, []), Prim(Null)]); Contains(v, v) == Throws
  {
    var items := [Obj(0, []), Prim(Null)];
    assert Inside(items[0], items[1], false) == Throws;
    assert InsideSome(items, items[1]) == Throws;
    assert Inside(items[0], items[0], false) == Yes;
    assert InsideSome(items, items[0]) == Yes;
    assert items[1..] == [items[1]];
  }

  /** No object has a property that looks like the first index of an array. */
  ghost predicate NoIndexKey(v: Json) {
    match v
    case Prim(_) => true
    case Arr(items) => forall item <- items :: NoIndexKey(item)
    case Obj(_, members) => !HasOwnProperty(members, "0") && forall m <- members :: NoIndexKey(m.value)
  }

  /** Where the check goes through both values, no object is compared with a non-empty array. */
  ghost predicate NoObjectOverArray(x: Json, y: Json)
    decreases y
  {
    match (x, y)
    case (Arr(xs), Arr(ys)) => forall u <- xs, v <- ys | Inside(u, v, false) == Yes :: NoObjectOverArray(u, v)
    case (Obj(_, xs), Obj(_, ys)) =>
      forall m <- ys | HasOwnProperty(xs, m.key) :: NoObjectOverArray(Property(xs, m.key), m.value)
    case (Obj(_, _), Arr(ys)) => ys == []
    case _ => true
  }

  /** Containment is transitive as long as no object contains a non-empty array. */
  lemma {:induction false} Transitive(x: Json, y: Json, z: Json, isToplevel: bool)
    requires Inside(x, y, isToplevel) == Yes && Inside(y, z, isToplevel) == Yes && NoObjectOverArray(x, y)
    ensures Inside(x, z, isToplevel) != No
    ensures NullFree(z) ==> Inside(x, z, isToplevel) == Yes
    decreases z
  {
    if NullFree(z) {
      NullFreeNeverThrows(x, z, isToplevel);
    }
    if x.Arr? && y.Arr? && z.Arr? {
      TransitiveItems(x, y, z);
    } else if x.Arr? && y.Arr? && z.Prim? {
      EachInsideMeans(x.items, y.items);
      InsideSomeMeans(x.items, z);
    } else if x.Obj? && y.Obj? && z.Obj? {
      TransitiveMembers(x, y, z);
    } else if x.Obj? && y.Arr? {
      assert z.Arr? && (z.items != [] ==> InsideSome(y.items, z.items[0]) == No);
    } else if x.Obj? && y.Obj? && z.Arr? {
      TransitiveIndices(x, y, z);
    }
  }

  lemma {:induction false} TransitiveItems(x: Json, y: Json, z: Json)
    requires x.Arr? && y.Arr? && z.Arr?
    requires Inside(x, y, false) == Yes && Inside(y, z, false) == Yes && NoObjectOverArray(x, y)
    ensures EachInside(x.items, z.items) != No
    decreases z, 0
  {
    EachInsideMeans(x.items, y.items);
    EachInsideMeans(y.items, z.items);
    EachInsideMeans(x.items, z.items);
    forall w | w in z.items
      ensures InsideSome(x.items, w) != No
    {
      InsideSomeMeans(y.items, w);
      var v :| v in y.items && Inside(v, w, false) == Yes;
      InsideSomeMeans(x.items, v);
      var u :| u in x.items && Inside(u, v, false) == Yes;
      Transitive(u, v, w, false);
      InsideSomeMeans(x.items, w);
    }
  }

  lemma {:induction false} TransitiveMembers(x: Json, y: Json, z: Json)
    requires x.Obj? && y.Obj? && z.Obj?
    requires Inside(x, y, false) == Yes && Inside(y, z, false) == Yes && NoObjectOverArray(x, y)
    ensures EachMemberInside(x.members, z.members) != No
    decreases z, 0
  {
    EachMemberMeans(y.members, z.members);
    EachMemberMeans(x.members, z.members);
    forall m | m in z.members
      ensures MemberInside(x.members, m.key, m.value) != No
    {
      assert MemberInside(y.members, m.key, m.value) == Yes;
      SharedProperty(x, y, m.key);
      Transitive(Property(x.members, m.key), Property(y.members, m.key), m.value, false);
    }
  }

  lemma {:induction false} TransitiveIndices(x: Json, y: Json, z: Json)
    requires x.Obj? && y.Obj? && z.Arr?
    requires Inside(x, y, false) == Yes && Inside(y, z, false) == Yes && NoObjectOverArray(x, y)
    ensures EachIndexInside(x.members, z.items, 0) != No
    decreases z, 0
  {
    EachIndexYes(y.members, z.items, 0);
    EachIndexMeans(x.members, z.items, 0);
    forall i | 0 <= i < |z.items|
      ensures IndexAnswer(x.members, z.items, 0, i) != No
    {
      assert IndexAnswer(y.members, z.items, 0, i) == Yes;
      var key := Decimal(i);
      SharedProperty(x, y, key);
      Transitive(Property(x.members, key), Property(y.members, key), z.items[i], false);
    }
  }

  /** A property of `y` is inside the property of `x` of that name. */
  lemma SharedProperty(x: Json, y: Json, key: string)
    requires x.Obj? && y.Obj? && Inside(x, y, false) == Yes && NoObjectOverArray(x, y)
    requires HasOwnProperty(y.members, key)
    ensures HasOwnProperty(x.members, key)
    ensures Inside(Property(x.members, key), Property(y.members, key), false) == Yes
    ensures NoObjectOverArray(Property(x.members, key), Property(y.members, key))
  {
    EachMemberMeans(x.members, y.members);
    PropertyAt(y.members, key);
    var m := Member(key, Property(y.members, key));
    assert m in y.members && MemberInside(x.members, m.key, m.value) == Yes;
  }

  lemma HasFirstIndex(members: seq<Member>, others: seq<Json>)
    requires EachIndexInside(members, others, 0) == Yes
    ensures others == [] || HasOwnProperty(members, "0")
  {
    assert Decimal(0) == "0";
  }

  /** That is so if no object has the first index as a key, or there are no arrays. */
  lemma {:induction false} NothingOverArray(x: Json, y: Json, isToplevel: bool)
    requires Inside(x, y, isToplevel) == Yes && (NoIndexKey(x) || ArrayFree(y))
    ensures NoObjectOverArray(x, y)
    decreases y
  {
    if x.Arr? && y.Arr? {
      forall u, v | u in x.items && v in y.items && Inside(u, v, false) == Yes
        ensures NoObjectOverArray(u, v)
      {
        NothingOverArray(u, v, false);
      }
    } else if x.Obj? && y.Obj? {
      EachMemberMeans(x.members, y.members);
      forall m | m in y.members && HasOwnProperty(x.members, m.key)
        ensures NoObjectOverArray(Property(x.members, m.key), m.value)
      {
        PropertyAt(x.members, m.key);
        NothingOverArray(Property(x.members, m.key), m.value, false);
      }
    } else if x.Obj? && y.Arr? {
      HasFirstIndex(x.members, y.items);
    }
  }

  // ---------------------------------------------------------------- where containment is not transitive

  /** Beyond the greatest key that is an index. */
  function Beyond(members: seq<Member>): nat {
    if members == [] then 0
    else
      var rest, key := Beyond(members[1..]), members[0].key;
      if AllDigits(key) && DecimalValue(key) >= rest then DecimalValue(key) + 1 else rest
  }

  lemma {:induction false} NotBeyond(members: seq<Member>, n: nat)
    requires n >= Beyond(members)
    ensures !HasOwnProperty(members, Decimal(n))
  {
    if members != [] {
      NotBeyond(members[1..], n);
      DecimalValueOfDecimal(n);
      assert members == [members[0]] + members[1..];
    }
  }

  /** `n` times the same value. */
  function Copies(v: Json, n: nat): seq<Json> {
    seq(n, _ => v)
  }

  /** An array contains any number of copies of an item that contains itself. */
  lemma CopiesInside(ys: seq<Json>, v: Json, n: nat)
    requires InsideSome(ys, v) == Yes
    ensures EachInside(ys, Copies(v, n)) == Yes
  {
    EachInsideMeans(ys, Copies(v, n));
  }

  lemma InsideSingle(u: Json, v: Json)
    ensures InsideSome([u], v) == Inside(u, v, false)
  {
    assert [u][1..] == [];
  }

  lemma FirstIndex(members: seq<Member>, v: Json)
    ensures EachIndexInside(members, [v], 0) == MemberInside(members, "0", v)
  {
    assert [v][1..] == [] && Decimal(0) == "0";
  }

  /** An object with a property "0" other than null contains `[v]`, but not ever more copies of `v`. */
  lemma CopiesOutgrow(members: seq<Member>, v: Json)
    requires MemberInside(members, "0", v) == Yes && NullFree(v) && WellFormed(v) && Inside(v, v, false) == Yes
    ensures EachIndexInside(members, [v], 0) == Yes
    ensures var many := Copies(v, Beyond(members) + 1);
            && (forall item <- many :: WellFormed(item))
            && EachInside([v], many) == Yes && EachIndexInside(members, many, 0) == No
  {
    var n := Beyond(members);
    var many := Copies(v, n + 1);
    FirstIndex(members, v);
    InsideSingle(v, v);
    CopiesInside([v], v, n + 1);
    NullFreeNeverThrows(Obj(0, members), Arr(many), false);
    NotBeyond(members, n);
    EachIndexYes(members, many, 0);
    assert IndexAnswer(members, many, 0, n) == No;
  }

  /** Something inside a value without null in it. */
  function Plain(v: Json): Json {
    if v.Obj? then Obj(0, []) else v
  }

  lemma PlainInside(v: Json)
    requires !v.Arr? && v != Prim(Null)
    ensures WellFormed(Plain(v)) && NullFree(Plain(v))
    ensures Inside(v, Plain(v), false) == Yes && Inside(Plain(v), Plain(v), false) == Yes
    ensures Inside(Prim(Null), Plain(v), false) == No
  {
  }

  /** The first property after index 0 that is not null, if the properties at the indices start with null. */
  lemma FirstNotNull(members: seq<Member>) returns (j: nat)
    requires HasOwnProperty(members, "0") && Property(members, "0") == Prim(Null)
    ensures j > 0 && !(HasOwnProperty(members, Decimal(j)) && Property(members, Decimal(j)) == Prim(Null))
    ensures forall k | 0 <= k < j :: HasOwnProperty(members, Decimal(k)) && Property(members, Decimal(k)) == Prim(Null)
  {
    assert Decimal(0) == "0";
    j := 1;
    while HasOwnProperty(members, Decimal(j)) && Property(members, Decimal(j)) == Prim(Null)
      invariant j > 0
      invariant forall k | 0 <= k < j ::
          HasOwnProperty(members, Decimal(k)) && Property(members, Decimal(k)) == Prim(Null)
      decreases Beyond(members) - j
    {
      if j >= Beyond(members) {
        NotBeyond(members, j);
      }
      j := j + 1;
    }
  }

  lemma NullsThenPlain(members: seq<Member>, j: nat)
    requires forall k | 0 <= k < j :: HasOwnProperty(members, Decimal(k)) && Property(members, Decimal(k)) == Prim(Null)
    requires HasOwnProperty(members, Decimal(j))
    requires var d := Property(members, Decimal(j)); !d.Arr? && d != Prim(Null)
    ensures EachIndexInside(members, Copies(Prim(Null), j) + [Plain(Property(members, Decimal(j)))], 0) == Yes
  {
    hide HasOwnProperty, Property, EachIndexInside, MemberInside, Decimal, Plain;
    var d := Property(members, Decimal(j));
    var ys := Copies(Prim(Null), j) + [Plain(d)];
    EachIndexYes(members, ys, 0);
    forall i | 0 <= i < |ys|
      ensures IndexAnswer(members, ys, 0, i) == Yes
    {
      PlainMember(members, Decimal(i));
      assert ys[i] == if i < j then Prim(Null) else Plain(d);
    }
  }

  lemma PlainMember(members: seq<Member>, key: string)
    requires HasOwnProperty(members, key)
    ensures var d := Property(members, key);
            && (d == Prim(Null) ==> MemberInside(members, key, d) == Yes)
            && (!d.Arr? && d != Prim(Null) ==> MemberInside(members, key, Plain(d)) == Yes)
  {
    var d := Property(members, key);
    if !d.Arr? && d != Prim(Null) {
      PlainInside(d);
    }
  }

  /** The same for an object with null as property "0". */
  lemma NullsBreak(members: seq<Member>) returns (ys: seq<Json>, zs: seq<Json>)
    requires HasOwnProperty(members, "0") && Property(members, "0") == Prim(Null)
    requires forall m <- members :: !m.value.Arr?
    ensures (forall v <- ys :: WellFormed(v)) && (forall v <- zs :: WellFormed(v))
    ensures EachIndexInside(members, ys, 0) == Yes && EachInside(ys, zs) == Yes
    ensures EachIndexInside(members, zs, 0) == No
  {
    var none := Prim(Null);
    var j := FirstNotNull(members);
    if HasOwnProperty(members, Decimal(j)) {
      PropertyAt(members, Decimal(j));
      var d := Property(members, Decimal(j));
      var v := Plain(d);
      ys, zs := Copies(none, j) + [v], [v];
      PlainInside(d);
      NullsThenPlain(members, j);
      SomeAfterNulls(j, v);
      assert zs[1..] == [];
      FirstIndex(members, v);
    } else {
      ys, zs := [none], Copies(none, j + 1);
      FirstIndex(members, none);
      InsideSingle(none, none);
      CopiesInside(ys, none, j + 1);
      EachIndexMeans(members, zs, 0);
      EachIndexYes(members, zs, 0);
      assert IndexAnswer(members, zs, 0, j) == No;
    }
  }

  lemma {:induction false} SomeAfterNulls(n: nat, v: Json)
    requires Inside(v, v, false) == Yes && Inside(Prim(Null), v, false) == No
    ensures InsideSome(Copies(Prim(Null), n) + [v], v) == Yes
  {
    InsideSomeMeans(Copies(Prim(Null), n) + [v], v);
    var xs := Copies(Prim(Null), n) + [v];
    assert xs[n] == v;
  }

  /** An object with an index key at any depth breaks transitivity, if there are no arrays in it. */
  lemma {:induction false} Intransitive(x: Json) returns (y: Json, z: Json)
    requires WellFormed(x) && ArrayFree(x) && !NoIndexKey(x)
    ensures WellFormed(y) && WellFormed(z)
    ensures forall t :: Inside(x, y, t) == Yes && Inside(y, z, t) == Yes && Inside(x, z, t) == No
  {
    var members := x.members;
    if HasOwnProperty(members, "0") {
      PropertyAt(members, "0");
      var c := Property(members, "0");
      if c == Prim(Null) {
        var ys, zs := NullsBreak(members);
        y, z := Arr(ys), Arr(zs);
      } else {
        var v := Plain(c);
        PlainInside(c);
        assert Member("0", c) in members;
        CopiesOutgrow(members, v);
        y, z := Arr([v]), Arr(Copies(v, Beyond(members) + 1));
      }
    } else {
      var m :| m in members && !NoIndexKey(m.value);
      var k :| 0 <= k < |members| && members[k] == m;
      var y', z' := Intransitive(m.value);
      PropertyIs(members, k);
      y, z := Obj(0, [Member(m.key, y')]), Obj(0, [Member(m.key, z')]);
      OneMember(members, m.key, y');
      OneMember(members, m.key, z');
      OneMember(y.members, m.key, z');
    }
  }

  lemma OneMember(members: seq<Member>, key: string, v: Json)
    ensures EachMemberInside(members, [Member(key, v)]) == MemberInside(members, key, v)
    ensures HasOwnProperty([Member(key, v)], key) && Property([Member(key, v)], key) == v
  {
    var one := [Member(key, v)];
    assert one[0] == Member(key, v) && one[1..] == [];
  }

  /** For values without arrays, containment is transitive exactly if no object has the first index as a key. */
  lemma TransitiveIffNoIndexKey(x: Json)
    requires WellFormed(x) && ArrayFree(x)
    ensures (forall y, z | WellFormed(y) && WellFormed(z) && Contains(x, y) == Yes && Contains(y, z) == Yes ::
               Contains(x, z) != No)
            <==> NoIndexKey(x)
  {
    hide WellFormed, ArrayFree, NoIndexKey, Inside;
    if NoIndexKey(x) {
      forall y, z | WellFormed(y) && WellFormed(z) && Contains(x, y) == Yes && Contains(y, z) == Yes
        ensures Contains(x, z) != No
      {
        NothingOverArray(x, y, true);
        Transitive(x, y, z, true);
      }
    } else {
      var y, z := Intransitive(x);
      assert Contains(x, y) == Yes && Contains(y, z) == Yes && Contains(x, z) == No;
    }
  }

  const ONE := Prim(Number(1.0))
  const INDEXED := Obj(0, [Member("0", ONE)])

  /** With arrays the key alone does not decide: an index key does no harm next to an array of the same items. */
  lemma IndexKeyNextToArray(y: Json, z: Json, isToplevel: bool)
    requires Inside(Arr([INDEXED, Arr([ONE])]), y, isToplevel) == Yes && Inside(y, z, isToplevel) == Yes
    ensures !NoIndexKey(Arr([INDEXED, Arr([ONE])]))
    ensures Inside(Arr([INDEXED, Arr([ONE])]), z, isToplevel) != No
  {
    var xs := [INDEXED, Arr([ONE])];
    assert !NoIndexKey(xs[0]) by { assert Member("0", ONE) in INDEXED.members; }
    if y.Arr? && z.Arr? {
      EachInsideMeans(xs, y.items);
      EachInsideMeans(y.items, z.items);
      EachInsideMeans(xs, z.items);
      forall w | w in z.items
        ensures InsideSome(xs, w) != No
      {
        InsideSomeMeans(y.items, w);
        var v :| v in y.items && Inside(v, w, false) == Yes;
        InsideSomeMeans(xs, v);
        var u :| u in xs && Inside(u, v, false) == Yes;
        PartsTransitive(u, v, w);
        InsideSomeMeans(xs, w);
      }
    } else if y.Arr? {
      EachInsideMeans(xs, y.items);
      InsideSomeMeans(xs, z);
    }
  }

  lemma PartsTransitive(u: Json, v: Json, w: Json)
    requires u in [INDEXED, Arr([ONE])] && Inside(u, v, false) == Yes && Inside(v, w, false) == Yes
    ensures Inside(INDEXED, w, false) != No || Inside(Arr([ONE]), w, false) != No
  {
    if u == INDEXED && v.Arr? && v.items != [] {
      OnlyOne(v.items);
      OneInsideOne();
      NothingOverArray(Arr([ONE]), v, false);
      Transitive(Arr([ONE]), v, w, false);
    } else {
      if u == INDEXED && v.Obj? {
        forall m | m in v.members && HasOwnProperty(INDEXED.members, m.key)
          ensures NoObjectOverArray(Property(INDEXED.members, m.key), m.value)
        {
          assert m.key == "0";
        }
      } else if u == Arr([ONE]) {
        NothingOverArray(u, v, false);
      }
      Transitive(u, v, w, false);
    }
  }

  lemma OnlyOne(others: seq<Json>)
    requires others != [] && EachIndexInside(INDEXED.members, others, 0) == Yes
    ensures others == [ONE]
  {
    var members := INDEXED.members;
    assert Decimal(0) == "0";
    EachIndexYes(members, others, 0);
    assert members[0] == Member("0", ONE);
    assert IndexAnswer(members, others, 0, 0) == MemberInside(members, "0", others[0]);
    assert MemberInside(members, "0", others[0]) == Answered(ONE == others[0]);
    OneAtMost(others);
  }

  lemma OneAtMost(others: seq<Json>)
    ensures |others| > 1 ==> EachIndexInside(INDEXED.members, others, 0) != Yes
  {
    var members := INDEXED.members;
    if |others| > 1 {
      assert Decimal(1) == "1" && !HasOwnProperty(members, "1");
      EachIndexYes(members, others, 0);
      assert IndexAnswer(members, others, 0, 1) == No;
    }
  }

  lemma OneInsideOne()
    ensures Inside(Arr([ONE]), Arr([ONE]), false) == Yes
  {
    var one := [ONE];
    InsideSingle(ONE, ONE);
    assert one[1..] == [] && EachInside(one, one[1..]) == Yes;
    assert EachInside(one, one) == Yes;
  }

  /** Without that condition containment is not transitive. */
  lemma IndexKeysBreakTransitivity()
    ensures var one := Prim(Number(1.0));
      var x, y, z := Obj(0, [Member("0", one)]), Arr([one]), Arr([one, one]);
      Contains(x, y) == Yes && Contains(y, z) == Yes && Contains(x, z) == No
  {
    var one := Prim(Number(1.0));
    var members, y, z := [Member("0", one)], [one], [one, one];
    assert Decimal(0) == "0" && Decimal(1) == "1";
    assert members[0] in members && !HasOwnProperty(members, "1");
    assert y[1..] == [] && z[1..] == y;
    assert MemberInside(members, "0", one) == Yes && MemberInside(members, "1", one) == No;
    assert EachIndexInside(members, y, 1) == No && EachIndexInside(members, z, 0) == No;
    assert InsideSome(y, one) == Yes && EachInside(y, y) == Yes;
  }
}

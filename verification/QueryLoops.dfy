/**
 * The loops that hand query results to the action of a query iterator: reading chunks from
 * a cursor, reading one result set, and scanning an in-memory collection.
 */
module QueryLoops {
  import opened Prelude

  /** The registered action: one result at a time, or batches of a size (all in one batch if not positive). */
  datatype Action = ForEach | ForBatch(batchSize: int)

  datatype Call<T> = Each(result: T, index: nat) | Batch(results: seq<T>)

  // ---------------------------------------------------------------- what a query iterator promises

  function EachCalls<T>(rows: seq<T>): seq<Call<T>> {
    seq(|rows|, i requires 0 <= i < |rows| => Each(rows[i], i))
  }

  /** The batches that are full, in order. */
  function FullBatches<T>(rows: seq<T>, size: int): seq<Call<T>> {
    if 0 < size <= |rows| then [Batch(rows[..size])] + FullBatches(rows[size..], size) else []
  }

  /** The rows after the last full batch. */
  function Remainder<T>(rows: seq<T>, size: int): seq<T> {
    if 0 < size <= |rows| then Remainder(rows[size..], size) else rows
  }

  /** The calls for these rows when the action never stops and more rows may follow. */
  function CallsSoFar<T>(rows: seq<T>, action: Action): seq<Call<T>> {
    match action
    case ForEach => EachCalls(rows)
    case ForBatch(size) => FullBatches(rows, size)
  }

  /** The call that concludes these rows: a smaller batch, or an empty one if there are no rows. */
  function LastCall<T>(rows: seq<T>, action: Action): seq<Call<T>> {
    if action.ForBatch? && (Remainder(rows, action.batchSize) != [] || rows == [])
    then [Batch(Remainder(rows, action.batchSize))] else []
  }

  /** All calls for these rows when the action never stops. */
  function Planned<T>(rows: seq<T>, action: Action): seq<Call<T>> {
    CallsSoFar(rows, action) + LastCall(rows, action)
  }

  /** The action goes on after each of the first `n` calls. */
  ghost predicate GoesOn<T>(goesOn: seq<Call<T>> -> bool, calls: seq<Call<T>>, n: int) {
    forall k :: 0 < k <= n && k <= |calls| ==> goesOn(calls[..k])
  }

  /** The number of results handed over. */
  function Submitted<T>(calls: seq<Call<T>>): nat {
    if calls == [] then 0
    else (match calls[0] case Each(_, _) => 1 case Batch(results) => |results|) + Submitted(calls[1..])
  }

  datatype Outcome<T> = Outcome(calls: seq<Call<T>>, count: nat, broken: bool)

  /**
   * The planned calls are made up to the first one after which the action stops. The
   * iteration yields the number of results handed over, and whether it was stopped.
   */
  ghost predicate Iterates<T>(rows: seq<T>, action: Action, goesOn: seq<Call<T>> -> bool, o: Outcome<T>) {
    && o.calls <= Planned(rows, action)
    && GoesOn(goesOn, o.calls, |o.calls| - 1)
    && o.broken == (o.calls != [] && !goesOn(o.calls))
    && (!o.broken ==> o.calls == Planned(rows, action))
    && o.count == Submitted(o.calls)
  }

  /** There is only one way to iterate given rows with a given action. */
  lemma IteratesUnique<T>(rows: seq<T>, action: Action, goesOn: seq<Call<T>> -> bool, o: Outcome<T>, o': Outcome<T>)
    requires Iterates(rows, action, goesOn, o) && Iterates(rows, action, goesOn, o')
    ensures o == o'
  {
    NotLonger(rows, action, goesOn, o, o');
    NotLonger(rows, action, goesOn, o', o);
    var n := |o.calls|;
    assert o.calls == Planned(rows, action)[..n] && o'.calls == Planned(rows, action)[..n];
  }

  lemma NotLonger<T>(rows: seq<T>, action: Action, goesOn: seq<Call<T>> -> bool, o: Outcome<T>, o': Outcome<T>)
    requires Iterates(rows, action, goesOn, o) && Iterates(rows, action, goesOn, o')
    ensures |o.calls| >= |o'.calls|
  {
    var n := |o.calls|;
    if n < |Planned(rows, action)| {
      assert o.calls == Planned(rows, action)[..n];
      if n <= |o'.calls| {
        assert o'.calls[..n] == o.calls;
      }
    }
  }

  // ---------------------------------------------------------------- what batches there are

  function Concatenated<T>(calls: seq<Call<T>>): seq<T> {
    if calls == [] then []
    else (match calls[0] case Each(result, _) => [result] case Batch(results) => results) + Concatenated(calls[1..])
  }

  /** The planned calls cover every row once and in order. */
  lemma {:induction false} PlannedCoversRows<T>(rows: seq<T>, action: Action)
    ensures Concatenated(Planned(rows, action)) == rows
    decreases |rows|
  {
    var calls := Planned(rows, action);
    match action
    case ForEach =>
      EachCoversRows(rows, 0);
      assert EachCalls(rows) + [] == calls && rows[0..] == rows && EachCalls(rows)[0..] == calls;
    case ForBatch(size) =>
      if 0 < size <= |rows| {
        var rest := FullBatches(rows[size..], size) + LastCall(rows, action);
        assert calls == [Batch(rows[..size])] + rest;
        assert rows == rows[..size] + rows[size..];
        if size < |rows| {
          PlannedCoversRows(rows[size..], action);
        }
      }
  }

  /** One call per row; the k-th call of a forEach action is for the k-th row, and is told how many came before. */
  lemma CallsAreNumbered<T>(rows: seq<T>, k: nat)
    requires k < |rows|
    ensures var calls := Planned(rows, ForEach);
      && |calls| == |rows| && calls[k].Each?
      && calls[k].result == rows[k] && calls[k].index == k == Submitted(calls[..k])
  {
    var calls := Planned(rows, ForEach);
    SubmittedEach(calls[..k]);
  }

  lemma {:induction false} SubmittedEach<T>(calls: seq<Call<T>>)
    requires forall c <- calls :: c.Each?
    ensures Submitted(calls) == |calls|
  {
    if calls != [] {
      SubmittedEach(calls[1..]);
    }
  }

  lemma {:induction false} EachCoversRows<T>(rows: seq<T>, i: nat)
    requires i <= |rows|
    ensures Concatenated(EachCalls(rows)[i..]) == rows[i..]
    decreases |rows| - i
  {
    if i < |rows| {
      EachCoversRows(rows, i + 1);
      assert EachCalls(rows)[i..][1..] == EachCalls(rows)[i + 1..];
    }
  }

  /** All batches have the batch size, except that the last may be smaller; it is empty only without rows. */
  lemma {:induction false} BatchSizes<T>(rows: seq<T>, size: int)
    ensures var calls := Planned(rows, ForBatch(size));
      && calls != []
      && (forall k :: 0 <= k < |calls| - 1 ==> calls[k].Batch? && |calls[k].results| == size)
      && var last := calls[|calls| - 1];
      && last.Batch? && (last.results == [] <==> rows == []) && (size > 0 ==> |last.results| <= size)
      && (size <= 0 ==> calls == [Batch(rows)])
    decreases |rows|
  {
    var calls := Planned(rows, ForBatch(size));
    if 0 < size <= |rows| {
      var rest := FullBatches(rows[size..], size) + LastCall(rows, ForBatch(size));
      assert calls == [Batch(rows[..size])] + rest;
      if size < |rows| {
        BatchSizes(rows[size..], size);
      }
    }
  }

  // ---------------------------------------------------------------- one row after another

  /** The variables of a loop. */
  datatype Progress<T> = Progress(calls: seq<Call<T>>, batch: seq<T>, count: nat, broken: bool)

  /** The state of a loop once exactly these rows have been yielded. */
  ghost predicate Reached<T>(rows: seq<T>, action: Action, goesOn: seq<Call<T>> -> bool, p: Progress<T>) {
    && p.count == |rows|
    && p.calls == CallsSoFar(rows, action)
    && p.batch == (if action.ForBatch? then Remainder(rows, action.batchSize) else [])
    && GoesOn(goesOn, p.calls, if p.broken then |p.calls| - 1 else |p.calls|)
    && (p.broken ==> p.calls != [] && !goesOn(p.calls) && p.batch == [] && rows != [])
  }

  lemma {:induction false} OneMoreRow<T>(rows: seq<T>, row: T, size: int)
    ensures var rest := Remainder(rows, size) + [row];
      if size > 0 && |rest| == size
      then FullBatches(rows + [row], size) == FullBatches(rows, size) + [Batch(rest)] &&
           Remainder(rows + [row], size) == []
      else FullBatches(rows + [row], size) == FullBatches(rows, size) && Remainder(rows + [row], size) == rest
    decreases |rows|
  {
    if 0 < size <= |rows| {
      OneMoreRow(rows[size..], row, size);
      assert (rows + [row])[size..] == rows[size..] + [row] && (rows + [row])[..size] == rows[..size];
    } else if size > 0 && |rows| + 1 == size {
      assert (rows + [row])[..size] == rows + [row] && (rows + [row])[size..] == [];
    }
  }

  /** Yields a single item, or the current batch if enough items have accumulated. */
  method YieldRow<T>(p: Progress<T>, row: T, action: Action, goesOn: seq<Call<T>> -> bool, ghost rows: seq<T>)
    returns (r: Progress<T>)
    requires Reached(rows, action, goesOn, p) && !p.broken
    ensures Reached(rows + [row], action, goesOn, r) && r.count == p.count + 1
  {
    r := p;
    var dontBreak := true;
    match action {
      case ForEach =>
        r := r.(calls := r.calls + [Each(row, r.count)]);
        assert EachCalls(rows + [row]) == EachCalls(rows) + [Each(row, |rows|)];
        dontBreak := goesOn(r.calls);
      case ForBatch(size) =>
        OneMoreRow(rows, row, size);
        r := r.(batch := r.batch + [row]);
        if size > 0 && |r.batch| == size {
          r := r.(calls := r.calls + [Batch(r.batch)], batch := []);
          dontBreak := goesOn(r.calls);
        }
    }
    r := r.(count := r.count + 1);
    if !dontBreak {
      r := r.(broken := true);
    }
    assert forall k :: 0 < k <= |p.calls| ==> r.calls[..k] == p.calls[..k];
    assert r.calls[..|r.calls|] == r.calls;
  }

  /** Yields the last batch if needed, or an empty one if there were no results. */
  method YieldLast<T>(p: Progress<T>, action: Action, goesOn: seq<Call<T>> -> bool,
                      ghost rows: seq<T>, ghost all: seq<T>)
    returns (o: Outcome<T>)
    requires Reached(rows, action, goesOn, p) && rows <= all && (p.broken || rows == all)
    ensures Iterates(all, action, goesOn, o)
  {
    var calls, broken := p.calls, p.broken;
    if action.ForBatch? && (|p.batch| > 0 || p.count == 0) {
      calls := calls + [Batch(p.batch)];
      if !goesOn(calls) {
        broken := true;
      }
    }
    o := Outcome(calls, p.count, broken);
    assert forall k :: 0 < k <= |p.calls| ==> calls[..k] == p.calls[..k];
    assert calls[..|calls|] == calls;
    CallsExtend(rows, all, action);
    SubmittedAll(rows, action);
  }

  lemma CallsExtend<T>(rows: seq<T>, all: seq<T>, action: Action)
    requires rows <= all
    ensures CallsSoFar(rows, action) <= CallsSoFar(all, action)
  {
    if action.ForBatch? {
      FullBatchesExtend(rows, all, action.batchSize);
    }
  }

  lemma {:induction false} FullBatchesExtend<T>(rows: seq<T>, all: seq<T>, size: int)
    requires rows <= all
    ensures FullBatches(rows, size) <= FullBatches(all, size)
    decreases |rows|
  {
    if 0 < size <= |rows| {
      assert rows[..size] == all[..size];
      FullBatchesExtend(rows[size..], all[size..], size);
    }
  }

  lemma {:induction false} SubmittedIsLength<T>(calls: seq<Call<T>>)
    ensures Submitted(calls) == |Concatenated(calls)|
  {
    if calls != [] {
      SubmittedIsLength(calls[1..]);
    }
  }

  lemma SubmittedAll<T>(rows: seq<T>, action: Action)
    ensures Submitted(Planned(rows, action)) == |rows|
    ensures LastCall(rows, action) == [] ==> Submitted(CallsSoFar(rows, action)) == |rows|
  {
    PlannedCoversRows(rows, action);
    SubmittedIsLength(Planned(rows, action));
    assert CallsSoFar(rows, action) + [] == CallsSoFar(rows, action);
  }

  // ---------------------------------------------------------------- the three loops

  function Max(a: int, b: int): int {
    if a >= b then a else b
  }

  function Min(a: int, b: int): int {
    if a <= b then a else b
  }

  /** The rows from position `from` up to position `to`, as far as there are any. */
  function Slice<T>(rows: seq<T>, from: int, to: int): seq<T> {
    var hi := Min(Max(to, 0), |rows|);
    rows[Min(Max(from, 0), hi)..hi]
  }

  /** The rows that `LIMIT` and `OFFSET` leave over, with the clauses that the adapter generates. */
  function Limited<T>(rows: seq<T>, take: Option<int>, skip: Option<int>): seq<T> {
    var offset := if skip.Some? then Max(0, skip.value) else 0;
    Slice(rows, offset, if take.Some? then offset + Max(0, take.value) else |rows|)
  }

  /** Reads one result set, which the server has already limited. */
  method FetchOnce<T>(rows: seq<T>, take: Option<int>, skip: Option<int>, action: Action, goesOn: seq<Call<T>> -> bool)
    returns (o: Outcome<T>)
    ensures Iterates(Limited(rows, take, skip), action, goesOn, o)
  {
    var all := Limited(rows, take, skip);
    var p := Progress([], [], 0, false);
    var i := 0;
    while i < |all|
      invariant 0 <= i <= |all|
      invariant Reached(all[..i], action, goesOn, p) && !p.broken
    {
      assert all[..i + 1] == all[..i] + [all[i]];
      p := YieldRow(p, all[i], action, goesOn, all[..i]);
      if p.broken {
        o := YieldLast(p, action, goesOn, all[..i + 1], all);
        return;
      }
      i := i + 1;
    }
    o := YieldLast(p, action, goesOn, all[..i], all);
  }

  lemma NothingReached<T>(rows: seq<T>, action: Action, goesOn: seq<Call<T>> -> bool)
    ensures Reached(rows[..0], action, goesOn, Progress([], [], 0, false))
  {
  }

  /** A take count that is not positive makes no call at all. */
  ghost predicate IteratesInChunks<T>(rows: seq<T>, take: Option<int>, skip: Option<int>, action: Action,
                                      goesOn: seq<Call<T>> -> bool, o: Outcome<T>)
  {
    if take.Some? && take.value <= 0 then o == Outcome([], 0, false)
    else Iterates(Limited(rows, take, skip), action, goesOn, o)
  }

  /** Yields the rows of a chunk; `all` are the rows to yield over all chunks. */
  method YieldChunk<T>(p: Progress<T>, chunk: seq<T>, takeCount: int, action: Action, goesOn: seq<Call<T>> -> bool,
                       ghost all: seq<T>)
    returns (r: Progress<T>, allTaken: bool)
    requires p.count <= |all| && Reached(all[..p.count], action, goesOn, p) && !p.broken
    requires forall i :: 0 <= i < |chunk| && p.count + i < |all| ==> chunk[i] == all[p.count + i]
    requires takeCount != 0 && (takeCount > 0 ==> p.count < takeCount && |all| <= takeCount)
    requires p.count + |chunk| <= |all| || |all| == takeCount
    ensures r.count <= |all| && Reached(all[..r.count], action, goesOn, r)
    ensures allTaken ==> r.count == |all|
    ensures !r.broken && !allTaken ==> r.count == p.count + |chunk| && (takeCount > 0 ==> r.count < takeCount)
  {
    hide Reached;
    r, allTaken := p, false;
    var i := 0;
    while i < |chunk|
      invariant 0 <= i <= |chunk| && r.count == p.count + i <= |all|
      invariant Reached(all[..r.count], action, goesOn, r) && !r.broken
      invariant takeCount > 0 ==> r.count < takeCount
    {
      assert all[..r.count + 1] == all[..r.count] + [chunk[i]];
      r := YieldRow(r, chunk[i], action, goesOn, all[..r.count]);
      if r.broken {
        return;
      }
      if takeCount > 0 && r.count >= takeCount {
        allTaken := true;
        return;
      }
      i := i + 1;
    }
  }

  lemma LimitedAt<T>(rows: seq<T>, take: Option<int>, skip: Option<int>)
    ensures var all, start := Limited(rows, take, skip), Min(if skip.Some? then Max(0, skip.value) else 0, |rows|);
      && |all| == (if take.Some? then Min(Max(0, take.value), |rows| - start) else |rows| - start)
      && forall i :: 0 <= i < |all| ==> all[i] == rows[start + i]
  {
  }

  /** Moves a cursor over some rows and then fetches rows; yields the rows and the new position. */
  method ReadCursor<T>(rows: seq<T>, cursor: nat, take: nat, skip: nat) returns (chunk: seq<T>, position: nat)
    requires cursor <= |rows|
    ensures position <= |rows| && position - |chunk| == Min(cursor + skip, |rows|)
    ensures |chunk| == Min(take, |rows| - Min(cursor + skip, |rows|))
    ensures chunk == rows[position - |chunk|..position]
  {
    var from := Min(cursor + skip, |rows|);
    chunk := rows[from..Min(from + take, |rows|)];
    position := from + |chunk|;
  }

  /** A chunk read from behind the rows yielded so far consists of the next rows to yield. */
  lemma ChunkAt<T>(rows: seq<T>, all: seq<T>, start: nat, count: nat, chunk: seq<T>)
    requires start + |all| <= |rows| && forall i :: 0 <= i < |all| ==> all[i] == rows[start + i]
    requires start + count + |chunk| <= |rows| && chunk == rows[start + count..start + count + |chunk|]
    ensures forall i :: 0 <= i < |chunk| && count + i < |all| ==> chunk[i] == all[count + i]
  {
    forall i | 0 <= i < |chunk| && count + i < |all|
      ensures chunk[i] == all[count + i]
    {
      assert all[count + i] == rows[start + (count + i)];
    }
  }

  /** Reads chunks of a fetch size from a cursor. */
  method FetchInChunks<T>(rows: seq<T>, fetchSize: nat, take: Option<int>, skip: Option<int>, action: Action,
                          goesOn: seq<Call<T>> -> bool)
    returns (o: Outcome<T>)
    requires fetchSize > 0
    ensures IteratesInChunks(rows, take, skip, action, goesOn, o)
  {
    hide Iterates;
    var takeCount := if take.Some? then Max(0, take.value) else -1;
    var skipCount := if skip.Some? then Max(0, skip.value) else 0;
    if takeCount == 0 {
      return Outcome([], 0, false);
    }
    LimitedAt(rows, take, skip);
    o := FetchChunks(rows, fetchSize, takeCount, skipCount, action, goesOn, Limited(rows, take, skip));
  }

  /** Fetches one chunk after the other, skipping rows before the first one. */
  method FetchChunks<T>(rows: seq<T>, fetchSize: nat, takeCount: int, skipCount: nat, action: Action,
                        goesOn: seq<Call<T>> -> bool, ghost all: seq<T>)
    returns (o: Outcome<T>)
    requires fetchSize > 0 && takeCount != 0
    requires var start := Min(skipCount, |rows|);
      && |all| == (if takeCount > 0 then Min(takeCount, |rows| - start) else |rows| - start)
      && forall i :: 0 <= i < |all| ==> all[i] == rows[start + i]
    ensures Iterates(all, action, goesOn, o)
  {
    hide Reached, Iterates;
    ghost var start := Min(skipCount, |rows|);
    var p := Progress([], [], 0, false);
    NothingReached(all, action, goesOn);
    var cursor, skip := 0, skipCount;
    while true
      invariant 0 <= cursor <= |rows| && skip >= 0 && p.count <= |all|
      invariant Min(cursor + skip, |rows|) == start + p.count
      invariant Reached(all[..p.count], action, goesOn, p) && !p.broken
      invariant takeCount > 0 ==> p.count < takeCount
      decreases |rows| - cursor
    {
      var chunk;
      chunk, cursor := ReadCursor(rows, cursor, fetchSize, skip);
      skip := 0;
      ChunkAt(rows, all, start, p.count, chunk);
      var allTaken;
      p, allTaken := YieldChunk(p, chunk, takeCount, action, goesOn, all);
      if p.broken || allTaken || |chunk| < fetchSize {
        o := YieldLast(p, action, goesOn, all[..p.count], all);
        return;
      }
    }
  }

  const MAX_SAFE_INTEGER := 9007199254740991

  function Matching<T>(objects: seq<T>, matcher: T -> bool): seq<T> {
    if objects == [] then []
    else Matching(objects[..|objects| - 1], matcher)
         + if matcher(objects[|objects| - 1]) then [objects[|objects| - 1]] else []
  }

  /** The matching objects that the in-memory scan yields. */
  function Scanned<T>(rows: seq<T>, take: Option<int>, skip: Option<int>): seq<T> {
    var limit := if take.Some? && take.value != 0 then take.value else MAX_SAFE_INTEGER;
    var offset := if skip.Some? then skip.value else 0;
    Slice(rows, offset, offset + limit)
  }

  lemma ScannedLength<T>(rows: seq<T>, take: Option<int>, skip: Option<int>)
    ensures var limit := if take.Some? && take.value != 0 then take.value else MAX_SAFE_INTEGER;
      var offset := if skip.Some? then skip.value else 0;
      |Scanned(rows, take, skip)| == if limit < 0 then 0 else Max(0, Min(|rows|, offset + limit) - Max(offset, 0))
  {
  }

  lemma ScannedAt<T>(rows: seq<T>, take: Option<int>, skip: Option<int>, k: nat)
    requires k < |rows|
    ensures var limit := if take.Some? && take.value != 0 then take.value else MAX_SAFE_INTEGER;
      var offset := if skip.Some? then skip.value else 0;
      var n := k - Max(offset, 0);
      0 <= n && k - offset < limit ==> n < |Scanned(rows, take, skip)| && Scanned(rows, take, skip)[n] == rows[k]
  {
  }

  /** Scans a collection, or the sorted matches under a matcher that accepts all. */
  method FindObjects<T>(objects: seq<T>, matcher: T -> bool, take: Option<int>, skip: Option<int>, action: Action,
                        goesOn: seq<Call<T>> -> bool)
    returns (o: Outcome<T>)
    ensures Iterates(Scanned(Matching(objects, matcher), take, skip), action, goesOn, o)
  {
    hide Reached, Iterates, Scanned, Matching;
    var limit := if take.Some? && take.value != 0 then take.value else MAX_SAFE_INTEGER;
    var offset := if skip.Some? then skip.value else 0;
    ghost var rows := Matching(objects, matcher);
    ghost var all := Scanned(rows, take, skip);
    ScannedLength(rows, take, skip);
    var p := Progress([], [], 0, false);
    NothingReached(all, action, goesOn);
    MatchingStep(objects, 0, matcher);
    var matchIndex := 0;
    var i := 0;
    while i < |objects|
      invariant 0 <= i <= |objects|
      invariant matchIndex == |Matching(objects[..i], matcher)| <= |rows|
      invariant p.count == (if limit < 0 then 0 else Max(0, matchIndex - Max(offset, 0))) <= |all|
      invariant matchIndex > 0 && matchIndex - 1 >= offset ==> matchIndex - 1 - offset < limit
      invariant Reached(all[..p.count], action, goesOn, p) && !p.broken
    {
      var obj := objects[i];
      MatchingStep(objects, i, matcher);
      if matcher(obj) {
        var resultIndex := matchIndex - offset;
        ScannedAt(rows, take, skip, matchIndex);
        if resultIndex >= 0 {
          if resultIndex < limit {
            assert all[..p.count + 1] == all[..p.count] + [obj];
            p := YieldRow(p, obj, action, goesOn, all[..p.count]);
            if p.broken {
              break;
            }
          } else {
            break;
          }
        }
        matchIndex := matchIndex + 1;
      }
      i := i + 1;
    }
    assert objects[..|objects|] == objects;
    o := YieldLast(p, action, goesOn, all[..p.count], all);
  }

  /** The next object adds itself to the matches so far if it matches. */
  lemma MatchingStep<T>(objects: seq<T>, i: nat, matcher: T -> bool)
    requires i <= |objects|
    ensures var n := |Matching(objects[..i], matcher)|;
      var rows := Matching(objects, matcher);
      && n <= |rows| && (i == 0 ==> n == 0)
      && (i < |objects| && matcher(objects[i]) ==>
            n < |rows| && rows[n] == objects[i] && |Matching(objects[..i + 1], matcher)| == n + 1)
      && (i < |objects| && !matcher(objects[i]) ==> |Matching(objects[..i + 1], matcher)| == n)
  {
    MatchingExtends(objects, i, matcher);
    if i < |objects| {
      MatchingExtends(objects, i + 1, matcher);
      assert objects[..i + 1][..i] == objects[..i];
    }
  }

  lemma {:induction false} MatchingExtends<T>(objects: seq<T>, n: nat, matcher: T -> bool)
    requires n <= |objects|
    ensures Matching(objects[..n], matcher) <= Matching(objects, matcher)
    decreases |objects| - n
  {
    if n < |objects| {
      MatchingExtends(objects, n + 1, matcher);
      assert objects[..n + 1][..n] == objects[..n];
    } else {
      assert objects[..n] == objects;
    }
  }

  // ---------------------------------------------------------------- the loops agree

  /**
   * For the same rows and actions the three loops make the same calls and yield the same
   * result, given a positive take count or none. Otherwise the chunked loop misses the
   * empty batch, and the in-memory loop takes everything for a count of 0.
   */
  lemma LoopsAgree<T>(rows: seq<T>, take: Option<int>, skip: Option<int>, action: Action, goesOn: seq<Call<T>> -> bool,
                      chunked: Outcome<T>, once: Outcome<T>, scanned: Outcome<T>)
    requires |rows| <= MAX_SAFE_INTEGER && (skip.Some? ==> skip.value >= 0)
    requires IteratesInChunks(rows, take, skip, action, goesOn, chunked)
    requires Iterates(Limited(rows, take, skip), action, goesOn, once)
    requires Iterates(Scanned(rows, take, skip), action, goesOn, scanned)
    ensures take.None? || take.value > 0 ==> chunked == once == scanned
    ensures chunked == once <==> take.None? || take.value > 0 || action.ForEach?
    ensures scanned == once <==> take != Some(0) || |rows| <= (if skip.Some? then skip.value else 0)
  {
    hide Iterates, Planned;
    var limited, offset := Limited(rows, take, skip), if skip.Some? then skip.value else 0;
    if take.None? || take.value > 0 {
      IteratesUnique(limited, action, goesOn, chunked, once);
    } else {
      assert limited == [];
      NoRows(action, goesOn, once);
    }
    if take != Some(0) || |rows| <= offset {
      assert Scanned(rows, take, skip) == limited;
      IteratesUnique(limited, action, goesOn, scanned, once);
    } else {
      SomeRows(Scanned(rows, take, skip), action, goesOn, scanned);
    }
  }

  lemma NoRows<T>(action: Action, goesOn: seq<Call<T>> -> bool, o: Outcome<T>)
    requires Iterates([], action, goesOn, o)
    ensures o.count == 0 && (o.calls == [] <==> action.ForEach?)
    ensures o.calls == [] ==> !o.broken
  {
    if action.ForBatch? {
      assert Planned<T>([], action) == [Batch([])];
      assert o.calls == [Batch([])];
      SubmittedAll<T>([], action);
    } else {
      assert o.calls == [];
    }
  }

  lemma SomeRows<T>(rows: seq<T>, action: Action, goesOn: seq<Call<T>> -> bool, o: Outcome<T>)
    requires rows != [] && Iterates(rows, action, goesOn, o)
    ensures o.count > 0
  {
    if action.ForBatch? {
      BatchSizes(rows, action.batchSize);
      var calls := Planned(rows, action);
      assert calls[0].results != [];
    }
    assert o.calls != [] && o.calls[0] == Planned(rows, action)[0];
  }
}

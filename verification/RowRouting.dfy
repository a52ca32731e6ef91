/**
  The rows of a write request are checked one by one and collected by shard in a map
  that is kept sorted by shard id. No row gets lost.
 */
module RowRouting {
  import opened Options

  /** The rows of one shard; a row is named by its position in the request. */
  datatype ShardRow = ShardRow(id: int, rows: seq<nat>)

  ghost predicate SortedById(m: seq<ShardRow>) {
    forall i, j :: 0 <= i < j < |m| ==> m[i].id < m[j].id
  }

  function RowsUnder(m: seq<ShardRow>, id: int): seq<nat> {
    if m == [] then []
    else if m[|m| - 1].id == id then m[|m| - 1].rows
    else RowsUnder(m[..|m| - 1], id)
  }

  function Total(m: seq<ShardRow>): nat {
    if m == [] then 0 else Total(m[..|m| - 1]) + |m[|m| - 1].rows|
  }

  ghost predicate HasId(m: seq<ShardRow>, id: int) {
    exists i :: 0 <= i < |m| && m[i].id == id
  }

  function Insert(m: seq<ShardRow>, e: ShardRow): seq<ShardRow> {
    if m == [] || m[|m| - 1].id <= e.id then m + [e]
    else Insert(m[..|m| - 1], e) + [m[|m| - 1]]
  }

  function InsertAll(m: seq<ShardRow>): seq<ShardRow> {
    if m == [] then [] else Insert(InsertAll(m[..|m| - 1]), m[|m| - 1])
  }

  /** Sorts the entries by shard id. */
  method SortShardRows(m: seq<ShardRow>) returns (out: seq<ShardRow>)
    ensures out == InsertAll(m)
  {
    out := [];
    for i := 0 to |m|
      invariant out == InsertAll(m[..i])
    {
      ghost var before := out;
      var tail: seq<ShardRow> := [];
      while out != [] && out[|out| - 1].id > m[i].id
        invariant Insert(out, m[i]) + tail == Insert(before, m[i])
        decreases |out|
      {
        tail := [out[|out| - 1]] + tail;
        out := out[..|out| - 1];
      }
      assert m[..i + 1][..i] == m[..i];
      out := out + [m[i]] + tail;
    }
    assert m[..|m|] == m;
  }

  lemma InsertLast(m: seq<ShardRow>, e: ShardRow)
    requires m == [] || m[|m| - 1].id <= e.id
    ensures Insert(m, e) == m + [e]
  {
  }

  lemma {:induction false} InsertAllSorted(m: seq<ShardRow>)
    requires SortedById(m)
    ensures InsertAll(m) == m
  {
    hide Insert;
    if m != [] {
      var n := |m| - 1;
      InsertAllSorted(m[..n]);
      InsertLast(m[..n], m[n]);
      assert m[..n] + [m[n]] == m;
    }
  }

  lemma {:induction false} InsertMembers(m: seq<ShardRow>, e: ShardRow)
    ensures forall x :: x in Insert(m, e) <==> x in m || x == e
  {
    if m != [] && m[|m| - 1].id > e.id {
      var n := |m| - 1;
      InsertMembers(m[..n], e);
      assert m == m[..n] + [m[n]];
    }
  }

  lemma {:induction false} InsertSorted(m: seq<ShardRow>, e: ShardRow)
    requires SortedById(m) && !HasId(m, e.id)
    ensures SortedById(Insert(m, e))
  {
    if m == [] || m[|m| - 1].id <= e.id {
      InsertLast(m, e);
      assert m != [] ==> m[|m| - 1].id < e.id;
    } else {
      var n := |m| - 1;
      assert !HasId(m[..n], e.id);
      InsertSorted(m[..n], e);
      InsertMembers(m[..n], e);
      var r := Insert(m[..n], e);
      forall i | 0 <= i < |r| ensures r[i].id < m[n].id {
        assert r[i] in r;
      }
    }
  }

  lemma InsertBefore(m: seq<ShardRow>, e: ShardRow)
    requires m != [] && m[|m| - 1].id > e.id
    ensures Insert(m, e) == Insert(m[..|m| - 1], e) + [m[|m| - 1]]
  {
  }

  lemma EntrySnoc(m: seq<ShardRow>, e: ShardRow, id: int)
    ensures Total(m + [e]) == Total(m) + |e.rows|
    ensures RowsUnder(m + [e], id) == if e.id == id then e.rows else RowsUnder(m, id)
  {
    assert (m + [e])[..|m|] == m;
  }

  lemma {:induction false} InsertRows(m: seq<ShardRow>, e: ShardRow, id: int)
    requires !HasId(m, e.id)
    ensures Total(Insert(m, e)) == Total(m) + |e.rows|
    ensures RowsUnder(Insert(m, e), id) == if id == e.id then e.rows else RowsUnder(m, id)
  {
    hide Insert, Total, RowsUnder;
    if m == [] || m[|m| - 1].id <= e.id {
      InsertLast(m, e);
      EntrySnoc(m, e, id);
    } else {
      var n := |m| - 1;
      assert !HasId(m[..n], e.id);
      InsertRows(m[..n], e, id);
      InsertBefore(m, e);
      EntrySnoc(Insert(m[..n], e), m[n], id);
      EntrySnoc(m[..n], m[n], id);
      assert m[..n] + [m[n]] == m;
    }
  }

  lemma {:induction false} NoRowsUnder(m: seq<ShardRow>, id: int)
    requires !HasId(m, id)
    ensures RowsUnder(m, id) == []
  {
    if m != [] {
      var n := |m| - 1;
      assert m[n].id != id;
      assert !HasId(m[..n], id);
      NoRowsUnder(m[..n], id);
    }
  }

  /** Map `after` is `m` with one more row under a shard. */
  ghost predicate Added(m: seq<ShardRow>, after: seq<ShardRow>, id: int, row: nat) {
    && SortedById(after) && Total(after) == Total(m) + 1
    && forall x :: RowsUnder(after, x) == if x == id then RowsUnder(m, x) + [row] else RowsUnder(m, x)
  }

  lemma {:induction false} UpdateEntry(m: seq<ShardRow>, i: nat, row: nat)
    requires SortedById(m) && i < |m|
    ensures Added(m, m[i := ShardRow(m[i].id, m[i].rows + [row])], m[i].id, row)
    decreases |m|
  {
    hide RowsUnder, Total;
    var n := |m| - 1;
    var e := ShardRow(m[i].id, m[i].rows + [row]);
    var u := m[i := e];
    assert m == m[..n] + [m[n]] && u == u[..n] + [u[n]];
    if i == n {
      assert u[..n] == m[..n];
    } else {
      UpdateEntry(m[..n], i, row);
      assert u[..n] == m[..n][i := e];
    }
    forall k | 0 <= k < |m| ensures u[k].id == m[k].id {
    }
    assert SortedById(u);
    EntrySnoc(m[..n], m[n], 0);
    EntrySnoc(u[..n], u[n], 0);
    forall x ensures RowsUnder(u, x) == if x == m[i].id then RowsUnder(m, x) + [row] else RowsUnder(m, x) {
      EntrySnoc(m[..n], m[n], x);
      EntrySnoc(u[..n], u[n], x);
    }
  }

  /** What the checks of one row answer, in the order they are asked. */
  datatype Mst = MstOk | MstInvalid | MstFails
  datatype Schema = SchemaOk | SchemaDrops | SchemaKeeps | SchemaFails
  datatype Shard = ShardIs(id: int) | ShardRefuses | ShardNoMst | ShardFails

  datatype Answers = Answers(toStreamDst: bool, inRange: bool, timeOk: bool, fieldsOk: bool, mst: Mst, schema: Schema,
                             streamSchemaOk: bool, shard: Shard, mapped: bool, engineKnown: bool)

  /** What becomes of a row: dropped with an error, placed in a shard (perhaps with an
      error reported), tried again, or the whole request fails, for an unknown engine
      only after the row was placed. */
  datatype Verdict = Dropped | Placed(id: int, partial: bool) | Retried | Failed | PlacedAndFailed(id: int)

  /** The fate of one row; `clean` tells whether schemas are cleaned, in which case the
      schema counts after the shard was found and not before. */
  function Judge(clean: bool, a: Answers): Verdict {
    if a.toStreamDst || !a.inRange || !a.timeOk || !a.fieldsOk || a.mst.MstInvalid? then Dropped
    else if a.mst.MstFails? then Failed
    else if !clean && a.schema.SchemaFails? then Failed
    else if !clean && a.schema.SchemaDrops? then Dropped
    else if !a.streamSchemaOk then Failed
    else if a.shard.ShardNoMst? then if clean then Retried else Failed
    else if a.shard.ShardFails? then Failed
    else if a.shard.ShardRefuses? then Dropped
    else if clean && a.schema.SchemaFails? then Failed
    else if clean && a.schema.SchemaDrops? then Dropped
    else if !a.mapped then Failed
    else if !a.engineKnown then PlacedAndFailed(a.shard.id)
    else Placed(a.shard.id, a.schema.SchemaKeeps?)
  }

  /** A row can be stored under shard `id`: every check of it is passed. */
  ghost predicate Storable(a: Answers, id: int) {
    && a.inRange && a.timeOk && a.fieldsOk && a.mst.MstOk? && a.shard == ShardIs(id) && a.mapped && a.engineKnown
    && (a.schema.SchemaOk? || a.schema.SchemaKeeps?) && a.streamSchemaOk && !a.toStreamDst
  }

  /** Whether or not schemas are cleaned, a row is placed exactly if it can be stored, with
      an error exactly if only some of its fields can; and it is dropped only for a reason. */
  lemma JudgeMeans(clean: bool, a: Answers, id: int)
    ensures (Judge(clean, a).Placed? && Judge(clean, a).id == id) <==> Storable(a, id)
    ensures Judge(clean, a).Placed? ==> (Judge(clean, a).partial <==> a.schema.SchemaKeeps?)
    ensures Judge(clean, a).Dropped? ==>
              || a.toStreamDst || !a.inRange || !a.timeOk || !a.fieldsOk || a.mst.MstInvalid?
              || a.schema.SchemaDrops? || a.shard.ShardRefuses?
    ensures Judge(clean, a).Retried? ==> a.shard.ShardNoMst?
    ensures Judge(clean, a).PlacedAndFailed? ==> a.shard == ShardIs(Judge(clean, a).id) && !a.engineKnown
  {
  }

  predicate Fatal(v: Verdict) {
    v.Failed? || v.PlacedAndFailed?
  }

  /** A row is tried again until the answer is something else. */
  ghost predicate Settles(clean: bool, tries: seq<Answers>) {
    && tries != [] && !Judge(clean, tries[|tries| - 1]).Retried?
    && forall k :: 0 <= k < |tries| - 1 ==> Judge(clean, tries[k]).Retried?
  }

  function Final(clean: bool, tries: seq<Answers>): Verdict {
    if tries == [] then Failed else Judge(clean, tries[|tries| - 1])
  }

  /** The rows among the first `n` that are placed in a shard, and the number dropped. */
  function PlacedIn(clean: bool, requests: seq<seq<Answers>>, n: nat, id: int): seq<nat>
    requires n <= |requests|
  {
    if n == 0 then []
    else
      var v := Final(clean, requests[n - 1]);
      PlacedIn(clean, requests, n - 1, id) + (if v.Placed? && v.id == id then [n - 1] else [])
  }

  function DroppedOf(clean: bool, requests: seq<seq<Answers>>, n: nat): nat
    requires n <= |requests|
  {
    if n == 0 then 0 else DroppedOf(clean, requests, n - 1) + (if Final(clean, requests[n - 1]).Dropped? then 1 else 0)
  }

  lemma NewEntry(m: seq<ShardRow>, id: int, row: nat)
    requires SortedById(m) && !HasId(m, id)
    ensures Added(m, InsertAll((m + [ShardRow(id, [])])[|m| := ShardRow(id, [] + [row])]), id, row)
  {
    hide RowsUnder, Total, HasId, Insert;
    var e := ShardRow(id, [] + [row]);
    assert (m + [ShardRow(id, [])])[|m| := e] == m + [e] && (m + [e])[..|m|] == m;
    InsertAllSorted(m);
    InsertSorted(m, e);
    NoRowsUnder(m, id);
    InsertRows(m, e, id);
    forall x ensures RowsUnder(Insert(m, e), x) == if x == id then RowsUnder(m, x) + [row] else RowsUnder(m, x) {
      InsertRows(m, e, x);
    }
  }

  class InjestionCtx {
    var shardRowMap: seq<ShardRow>

    constructor ()
      ensures shardRowMap == []
    {
      shardRowMap := [];
    }

    /** Binary search for the entry of a shard. */
    method GetShardRow(id: int) returns (idx: Option<nat>)
      requires SortedById(shardRowMap)
      ensures idx.None? <==> !HasId(shardRowMap, id)
      ensures idx.Some? ==> idx.value < |shardRowMap| && shardRowMap[idx.value].id == id
    {
      var i, j := 0, |shardRowMap|;
      while i < j
        invariant 0 <= i <= j <= |shardRowMap|
        invariant forall k :: 0 <= k < i ==> shardRowMap[k].id < id
        invariant forall k :: j <= k < |shardRowMap| ==> id <= shardRowMap[k].id
      {
        var h := (i + j) / 2;
        if !(id <= shardRowMap[h].id) {
          i := h + 1;
        } else {
          j := h;
        }
      }
      if i < |shardRowMap| && shardRowMap[i].id == id {
        return Some(i);
      }
      return None;
    }

    /** Adds a row to a shard. */
    method SetShardRow(id: int, row: nat)
      requires SortedById(shardRowMap)
      modifies this
      ensures Added(old(shardRowMap), shardRowMap, id, row)
    {
      hide Added, RowsUnder, Total, InsertAll, Insert, HasId;
      var idx := GetShardRow(id);
      if idx.None? {
        NewEntry(shardRowMap, id, row);
        shardRowMap := shardRowMap + [ShardRow(id, [])];
        var last := |shardRowMap| - 1;
        shardRowMap := shardRowMap[last := ShardRow(id, [] + [row])];
        shardRowMap := SortShardRows(shardRowMap);
      } else {
        UpdateEntry(shardRowMap, idx.value, row);
        shardRowMap := shardRowMap[idx.value := ShardRow(id, shardRowMap[idx.value].rows + [row])];
      }
    }
  }

  ghost predicate AllSettle(clean: bool, requests: seq<seq<Answers>>) {
    forall i :: 0 <= i < |requests| ==> Settles(clean, requests[i])
  }

  predicate Reports(v: Verdict) {
    v.Dropped? || (v.Placed? && v.partial)
  }

  /** The first `n` rows are done: each is dropped and counted, or under its shard. */
  ghost predicate Done(clean: bool, requests: seq<seq<Answers>>, n: nat, m: seq<ShardRow>, dropped: nat,
                       partialErr: bool) {
    && n <= |requests| && SortedById(m)
    && Total(m) + dropped == n && dropped == DroppedOf(clean, requests, n)
    && (forall id :: RowsUnder(m, id) == PlacedIn(clean, requests, n, id))
    && (forall j :: 0 <= j < n ==> !Fatal(Final(clean, requests[j])))
    && (partialErr <==> exists j :: 0 <= j < n && Reports(Final(clean, requests[j])))
  }

  /** Row `at` is the first to fail. */
  ghost predicate FailedAt(clean: bool, requests: seq<seq<Answers>>, at: nat, m: seq<ShardRow>, dropped: nat)
    requires at < |requests|
  {
    var v := Final(clean, requests[at]);
    && Fatal(v) && SortedById(m)
    && dropped == DroppedOf(clean, requests, at) && Total(m) + dropped == at + (if v.PlacedAndFailed? then 1 else 0)
    && (forall j :: 0 <= j < at ==> !Fatal(Final(clean, requests[j])))
    && forall id ::
         RowsUnder(m, id) == PlacedIn(clean, requests, at, id) + (if v == PlacedAndFailed(id) then [at] else [])
  }

  /** The last answers given for row `i` let it be stored under shard `id`. */
  ghost predicate StoredRow(requests: seq<seq<Answers>>, i: int, id: int) {
    0 <= i < |requests| && requests[i] != [] && Storable(requests[i][|requests[i]| - 1], id)
  }

  lemma {:induction false} PlacedMeans(clean: bool, requests: seq<seq<Answers>>, n: nat, id: int)
    requires n <= |requests|
    ensures forall i :: i in PlacedIn(clean, requests, n, id) <==> i < n && StoredRow(requests, i, id)
    ensures forall j, k :: 0 <= j < k < |PlacedIn(clean, requests, n, id)| ==>
              PlacedIn(clean, requests, n, id)[j] < PlacedIn(clean, requests, n, id)[k]
  {
    hide Judge, Storable;
    if n > 0 {
      PlacedMeans(clean, requests, n - 1, id);
      var init := PlacedIn(clean, requests, n - 1, id);
      assert forall j :: 0 <= j < |init| ==> init[j] in init;
      if requests[n - 1] != [] {
        JudgeMeans(clean, requests[n - 1][|requests[n - 1]| - 1], id);
      }
    }
  }

  /** The rows under a shard are those that can be stored there. */
  lemma RoutedRows(clean: bool, requests: seq<seq<Answers>>, m: seq<ShardRow>, dropped: nat, partialErr: bool, id: int)
    requires Done(clean, requests, |requests|, m, dropped, partialErr)
    ensures forall i :: i in RowsUnder(m, id) <==> StoredRow(requests, i, id)
  {
    hide RowsUnder, PlacedIn, StoredRow;
    PlacedMeans(clean, requests, |requests|, id);
    forall i ensures StoredRow(requests, i, id) ==> 0 <= i < |requests| {
      RowInRange(requests, i, id);
    }
  }

  /** The row is stored, but not all of its fields. */
  ghost predicate PartlyStored(requests: seq<seq<Answers>>, i: int) {
    && 0 <= i < |requests| && requests[i] != []
    && var a := requests[i][|requests[i]| - 1];
       a.schema.SchemaKeeps? && a.shard.ShardIs? && Storable(a, a.shard.id)
  }

  lemma {:induction false} DroppedCount(clean: bool, requests: seq<seq<Answers>>, n: nat)
    requires n <= |requests|
    ensures DroppedOf(clean, requests, n) > 0 <==> exists j :: 0 <= j < n && Final(clean, requests[j]).Dropped?
  {
    hide Final;
    if n > 0 {
      DroppedCount(clean, requests, n - 1);
    }
  }

  /** An error is reported exactly if a row was dropped or stored in part. */
  lemma ErrorMeans(clean: bool, requests: seq<seq<Answers>>, m: seq<ShardRow>, dropped: nat, partialErr: bool)
    requires Done(clean, requests, |requests|, m, dropped, partialErr)
    ensures partialErr <==> dropped > 0 || exists i :: PartlyStored(requests, i)
  {
    hide RowsUnder, PlacedIn, Judge, Storable, Total, SortedById;
    DroppedCount(clean, requests, |requests|);
    forall i | 0 <= i < |requests|
      ensures PartlyStored(requests, i)
         <==> Final(clean, requests[i]).Placed? && Final(clean, requests[i]).partial
    {
      PartlyMeans(clean, requests, i);
    }
    if exists i :: PartlyStored(requests, i) {
      var i :| PartlyStored(requests, i);
      assert Reports(Final(clean, requests[i]));
    }
    if j :| 0 <= j < |requests| && Final(clean, requests[j]).Dropped? {
      assert Reports(Final(clean, requests[j]));
    }
  }

  lemma PartlyMeans(clean: bool, requests: seq<seq<Answers>>, i: nat)
    requires i < |requests|
    ensures PartlyStored(requests, i)
       <==> Final(clean, requests[i]).Placed? && Final(clean, requests[i]).partial
  {
    hide Judge, Storable;
    if requests[i] != [] {
      var a := requests[i][|requests[i]| - 1];
      if a.shard.ShardIs? {
        JudgeMeans(clean, a, a.shard.id);
      }
      PlacedHasShard(clean, a);
    }
  }

  lemma PlacedHasShard(clean: bool, a: Answers)
    ensures Judge(clean, a).Placed? ==> a.shard == ShardIs(Judge(clean, a).id)
  {
  }

  lemma RowInRange(requests: seq<seq<Answers>>, i: int, id: int)
    ensures StoredRow(requests, i, id) ==> 0 <= i < |requests|
  {
  }

  lemma NothingRouted(clean: bool, requests: seq<seq<Answers>>)
    requires AllSettle(clean, requests)
    ensures Done(clean, requests, 0, [], 0, false)
    ensures |requests| > 0 ==> |requests[0]| > 0
  {
    assert |requests| > 0 ==> Settles(clean, requests[0]);
  }

  /** A try is either the last one, or one to be repeated. */
  lemma TryAgain(clean: bool, requests: seq<seq<Answers>>, i: nat, k: nat)
    requires AllSettle(clean, requests) && i < |requests| && k < |requests[i]|
    ensures Judge(clean, requests[i][k]).Retried? <==> k < |requests[i]| - 1
    ensures !Judge(clean, requests[i][k]).Retried? ==> Final(clean, requests[i]) == Judge(clean, requests[i][k])
    ensures i + 1 < |requests| ==> |requests[i + 1]| > 0
  {
    assert Settles(clean, requests[i]);
    assert i + 1 < |requests| ==> Settles(clean, requests[i + 1]);
  }

  lemma NextRow(clean: bool, requests: seq<seq<Answers>>, i: nat)
    requires i < |requests|
    ensures var v := Final(clean, requests[i]);
            && DroppedOf(clean, requests, i + 1) == DroppedOf(clean, requests, i) + (if v.Dropped? then 1 else 0)
            && forall id :: PlacedIn(clean, requests, i + 1, id)
                 == if v.Placed? && v.id == id then PlacedIn(clean, requests, i, id) + [i]
                    else PlacedIn(clean, requests, i, id)
  {
  }

  lemma RowDropped(clean: bool, requests: seq<seq<Answers>>, i: nat, m: seq<ShardRow>, dropped: nat, partialErr: bool)
    requires i < |requests| && Done(clean, requests, i, m, dropped, partialErr)
    requires Final(clean, requests[i]).Dropped?
    ensures Done(clean, requests, i + 1, m, dropped + 1, true)
  {
    hide RowsUnder, Total, PlacedIn, DroppedOf, SortedById, Final;
    NextRow(clean, requests, i);
    assert Reports(Final(clean, requests[i]));
  }

  lemma RowPlaced(clean: bool, requests: seq<seq<Answers>>, i: nat, m: seq<ShardRow>, after: seq<ShardRow>,
                  dropped: nat, partialErr: bool)
    requires i < |requests| && Done(clean, requests, i, m, dropped, partialErr)
    requires var v := Final(clean, requests[i]); v.Placed? && Added(m, after, v.id, i)
    ensures Done(clean, requests, i + 1, after, dropped, partialErr || Final(clean, requests[i]).partial)
  {
    hide RowsUnder, Total, PlacedIn, DroppedOf, SortedById, Final;
    NextRow(clean, requests, i);
    var v := Final(clean, requests[i]);
    assert Reports(v) <==> v.partial;
    if partialErr {
      var j :| 0 <= j < i && Reports(Final(clean, requests[j]));
    }
  }

  lemma RowFails(clean: bool, requests: seq<seq<Answers>>, i: nat, m: seq<ShardRow>, after: seq<ShardRow>, dropped: nat,
                 partialErr: bool)
    requires i < |requests| && Done(clean, requests, i, m, dropped, partialErr)
    requires var v := Final(clean, requests[i]);
             (v.Failed? && after == m) || (v.PlacedAndFailed? && Added(m, after, v.id, i))
    ensures FailedAt(clean, requests, i, after, dropped)
    ensures exists j :: 0 <= j < |requests| && Fatal(Final(clean, requests[j]))
  {
    hide RowsUnder, Total, PlacedIn, DroppedOf, SortedById, Final;
    assert Fatal(Final(clean, requests[i]));
  }

  lemma DoneIsSorted(clean: bool, requests: seq<seq<Answers>>, i: nat, m: seq<ShardRow>, dropped: nat, partialErr: bool)
    requires Done(clean, requests, i, m, dropped, partialErr)
    ensures SortedById(m)
  {
  }

  lemma NobodyFailed(clean: bool, requests: seq<seq<Answers>>, m: seq<ShardRow>, dropped: nat, partialErr: bool)
    requires Done(clean, requests, |requests|, m, dropped, partialErr)
    ensures !exists j :: 0 <= j < |requests| && Fatal(Final(clean, requests[j]))
  {
  }

  /** Without a fatal error every row ends in exactly one place: dropped, or under the
      shard chosen for it, in the order of the request. It is fatal exactly if some row
      fails; then the rows before the first of them, `at`, are done, and that row itself
      is in the map exactly if only its engine was unknown. */
  method RouteAndMapOriginRows(ctx: InjestionCtx, clean: bool, requests: seq<seq<Answers>>)
    returns (partialErr: bool, dropped: nat, failed: bool, ghost at: nat)
    requires ctx.shardRowMap == [] && AllSettle(clean, requests)
    modifies ctx
    ensures failed <==> exists i :: 0 <= i < |requests| && Fatal(Final(clean, requests[i]))
    ensures !failed ==> Done(clean, requests, |requests|, ctx.shardRowMap, dropped, partialErr)
    ensures failed ==> at < |requests| && FailedAt(clean, requests, at, ctx.shardRowMap, dropped)
    ensures !failed ==> forall id, i :: i in RowsUnder(ctx.shardRowMap, id) <==> StoredRow(requests, i, id)
    ensures !failed ==> (partialErr <==> dropped > 0 || exists i :: PartlyStored(requests, i))
  {
    hide Done, FailedAt, Added, AllSettle, Final, RowsUnder, StoredRow, PartlyStored;
    partialErr, dropped, failed, at := false, 0, false, 0;
    var i, k := 0, 0;
    NothingRouted(clean, requests);
    while i < |requests|
      invariant i <= |requests| && !failed && Done(clean, requests, i, ctx.shardRowMap, dropped, partialErr)
      invariant i < |requests| ==> k < |requests[i]|
      decreases |requests| - i, if i < |requests| then |requests[i]| - k else 0
    {
      var a := requests[i][k];
      ghost var m, before := ctx.shardRowMap, partialErr;
      TryAgain(clean, requests, i, k);
      if a.toStreamDst {
        RowDropped(clean, requests, i, m, dropped, before);
        partialErr, dropped := true, dropped + 1;
        i, k := i + 1, 0;
        continue;
      }
      if !a.inRange {
        RowDropped(clean, requests, i, m, dropped, before);
        partialErr, dropped := true, dropped + 1;
        i, k := i + 1, 0;
        continue;
      }
      if !a.timeOk {
        RowDropped(clean, requests, i, m, dropped, before);
        partialErr, dropped := true, dropped + 1;
        i, k := i + 1, 0;
        continue;
      }
      if !a.fieldsOk {
        RowDropped(clean, requests, i, m, dropped, before);
        partialErr, dropped := true, dropped + 1;
        i, k := i + 1, 0;
        continue;
      }
      if a.mst.MstInvalid? {
        RowDropped(clean, requests, i, m, dropped, before);
        partialErr, dropped := true, dropped + 1;
        i, k := i + 1, 0;
        continue;
      }
      if a.mst.MstFails? {
        RowFails(clean, requests, i, m, ctx.shardRowMap, dropped, before);
        failed, at := true, i;
        return;
      }
      if !clean {
        if a.schema.SchemaFails? {
          RowFails(clean, requests, i, m, ctx.shardRowMap, dropped, before);
          failed, at := true, i;
          return;
        }
        if !a.schema.SchemaOk? {
          partialErr := true;
          if a.schema.SchemaDrops? {
            RowDropped(clean, requests, i, m, dropped, before);
            dropped := dropped + 1;
            i, k := i + 1, 0;
            continue;
          }
        }
      }
      if !a.streamSchemaOk {
        RowFails(clean, requests, i, m, ctx.shardRowMap, dropped, before);
        failed, at := true, i;
        return;
      }
      if a.shard.ShardNoMst? && clean {
        k := k + 1;
        continue;
      }
      if a.shard.ShardNoMst? || a.shard.ShardFails? {
        RowFails(clean, requests, i, m, ctx.shardRowMap, dropped, before);
        failed, at := true, i;
        return;
      }
      if a.shard.ShardRefuses? {
        RowDropped(clean, requests, i, m, dropped, before);
        partialErr, dropped := true, dropped + 1;
        i, k := i + 1, 0;
        continue;
      }
      if clean {
        if a.schema.SchemaFails? {
          RowFails(clean, requests, i, m, ctx.shardRowMap, dropped, before);
          failed, at := true, i;
          return;
        }
        if !a.schema.SchemaOk? {
          partialErr := true;
          if a.schema.SchemaDrops? {
            RowDropped(clean, requests, i, m, dropped, before);
            dropped := dropped + 1;
            i, k := i + 1, 0;
            continue;
          }
        }
      }
      if !a.mapped {
        RowFails(clean, requests, i, m, ctx.shardRowMap, dropped, before);
        failed, at := true, i;
        return;
      }
      DoneIsSorted(clean, requests, i, m, dropped, before);
      ctx.SetShardRow(a.shard.id, i);
      if !a.engineKnown {
        RowFails(clean, requests, i, m, ctx.shardRowMap, dropped, before);
        failed, at := true, i;
        return;
      }
      RowPlaced(clean, requests, i, m, ctx.shardRowMap, dropped, before);
      i, k := i + 1, 0;
    }
    NobodyFailed(clean, requests, ctx.shardRowMap, dropped, partialErr);
    ErrorMeans(clean, requests, ctx.shardRowMap, dropped, partialErr);
    forall id ensures forall i :: i in RowsUnder(ctx.shardRowMap, id) <==> StoredRow(requests, i, id) {
      RoutedRows(clean, requests, ctx.shardRowMap, dropped, partialErr, id);
    }
  }
}

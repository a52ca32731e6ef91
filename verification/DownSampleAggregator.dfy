/**
  The aggregator of a down-sample task: for every field of every series of
  every file it sends chunks whose rows together form one list of windows,
  unbroken unless the first chunk is a single row in a window the shard starts in.
 */
module DownSampleAggregator {
  import opened Options
  import opened Multiples
  import opened DownSampleWindows
  import opened AggregateCursor

  /** File, series and field a record belongs to. */
  datatype Key = Key(file: string, sid: int, field: string)

  datatype RawRow = RawRow(time: int, isNil: bool)

  /** One segment of a field, with the time range of the series in its file. */
  datatype SeriesRecord = SeriesRecord(key: Key, trMin: int, trMax: int, rows: seq<RawRow>)

  datatype OutRecord = OutRecord(key: Key, rows: seq<Row>)

  /** The times of the rows with a value. */
  function Kick(rows: seq<RawRow>): seq<int> {
    if rows == [] then []
    else if rows[|rows| - 1].isNil then Kick(rows[..|rows| - 1])
    else Kick(rows[..|rows| - 1]) + [rows[|rows| - 1].time]
  }

  function TimesOf(rows: seq<RawRow>): seq<int> {
    seq(|rows|, i requires 0 <= i < |rows| => rows[i].time)
  }

  lemma {:induction false} KickStretch(rows: seq<RawRow>, i: nat, j: nat)
    requires i <= j <= |rows| && forall k :: i <= k < j ==> !rows[k].isNil
    ensures Kick(rows[..j]) == Kick(rows[..i]) + TimesOf(rows[i..j])
    decreases j
  {
    if i < j {
      KickStretch(rows, i, j - 1);
      assert rows[..j][..j - 1] == rows[..j - 1];
      assert TimesOf(rows[i..j]) == TimesOf(rows[i..j - 1]) + [rows[j - 1].time];
    }
  }

  lemma KickNil(rows: seq<RawRow>, j: nat)
    requires j < |rows| && rows[j].isNil
    ensures Kick(rows[..j + 1]) == Kick(rows[..j])
  {
    assert rows[..j + 1][..j] == rows[..j];
  }

  /** Copies the stretches between rows without a value; a record without any such row is
      handed on. */
  method KickNilRow(rows: seq<RawRow>) returns (kicked: seq<int>)
    ensures kicked == Kick(rows)
  {
    hide Kick;
    kicked := [];
    var rowIdx := 0;
    KickStretch(rows, 0, 0);
    NothingKicked();
    while rowIdx < |rows|
      invariant 0 <= rowIdx <= |rows| && kicked == Kick(rows[..rowIdx])
    {
      var endRow := rowIdx;
      while endRow < |rows| && !rows[endRow].isNil
        invariant rowIdx <= endRow <= |rows| && forall k :: rowIdx <= k < endRow ==> !rows[k].isNil
      {
        endRow := endRow + 1;
      }
      if endRow != rowIdx {
        KickStretch(rows, rowIdx, endRow);
        if endRow - rowIdx == |rows| {
          assert rows[..endRow] == rows && rows[rowIdx..endRow] == rows;
          return TimesOf(rows);
        }
        kicked := kicked + TimesOf(rows[rowIdx..endRow]);
        rowIdx := endRow;
      } else {
        KickNil(rows, rowIdx);
        rowIdx := rowIdx + 1;
      }
    }
    assert rows[..rowIdx] == rows;
  }

  lemma NothingKicked()
    ensures Kick([]) == []
  {
  }

  /** A segment is not empty, in time order and inside the time range of its series, which
      is inside the shard. */
  ghost predicate Proper(shardStart: int, c: SeriesRecord) {
    && 0 < |c.rows| <= 65535
    && (forall i, j :: 0 <= i < j < |c.rows| ==> c.rows[i].time < c.rows[j].time)
    && (forall i :: 0 <= i < |c.rows| ==> shardStart <= c.trMin <= c.rows[i].time <= c.trMax)
  }

  /** A segment of the same field as the first one. */
  ghost predicate SegmentOf(shardStart: int, c: SeriesRecord, first: SeriesRecord) {
    Proper(shardStart, c) && c.key == first.key && c.trMin == first.trMin && c.trMax == first.trMax
  }

  ghost predicate Precedes(c: SeriesRecord, d: SeriesRecord) {
    forall i, j :: 0 <= i < |c.rows| && 0 <= j < |d.rows| ==> c.rows[i].time < d.rows[j].time
  }

  /** The segments of one field of one series, in time order. */
  ghost predicate ValidGroup(w: Windowing, shardStart: int, g: seq<SeriesRecord>) {
    && (forall k :: 0 <= k < |g| ==> SegmentOf(shardStart, g[k], g[0]))
    && (forall k, l :: 0 <= k < l < |g| ==> Precedes(g[k], g[l]))
  }

  lemma {:induction false} KickMeaning(rows: seq<RawRow>)
    requires forall i, j :: 0 <= i < j < |rows| ==> rows[i].time < rows[j].time
    ensures |Kick(rows)| <= |rows|
    ensures forall k :: 0 <= k < |Kick(rows)| ==> exists i :: 0 <= i < |rows| && rows[i].time == Kick(rows)[k]
    ensures forall i, j :: 0 <= i < j < |Kick(rows)| ==> Kick(rows)[i] < Kick(rows)[j]
  {
    if rows != [] {
      var init := rows[..|rows| - 1];
      KickMeaning(init);
      assert forall i :: 0 <= i < |init| ==> init[i] == rows[i];
      assert rows[|rows| - 1].time == rows[|rows| - 1].time;
    }
  }

  /** All later rows of the group are in windows after `s`. */
  ghost predicate After(w: Windowing, s: int, g: seq<SeriesRecord>) {
    forall k, i :: 0 <= k < |g| && 0 <= i < |g[k].rows| ==> s < Start(w, g[k].rows[i].time)
  }

  /** Windows in order after window `reached`, none of them past `lastWindow`. */
  ghost predicate Extends(due: seq<int>, reached: int, lastWindow: int) {
    && (forall i, j :: 0 <= i < j < |due| ==> due[i] < due[j])
    && (forall i :: 0 <= i < |due| ==> reached < due[i] <= lastWindow)
  }

  function LastOr(s: seq<int>, default: int): int {
    if s == [] then default else s[|s| - 1]
  }

  lemma ExtendsConcat(a: seq<int>, b: seq<int>, reached: int, lastWindow: int)
    requires Extends(a, reached, lastWindow) && Extends(b, LastOr(a, reached), lastWindow)
    ensures Extends(a + b, reached, lastWindow)
    ensures LastOr(a + b, reached) == LastOr(b, LastOr(a, reached))
  {
    forall i, j | 0 <= i < j < |a + b| ensures (a + b)[i] < (a + b)[j] {
      if i < |a| <= j {
        assert a[i] <= a[|a| - 1] < b[j - |a|];
      }
    }
    forall i | 0 <= i < |b| ensures reached < b[i] {
      assert a != [] ==> reached < a[|a| - 1];
    }
  }

  /** The state inside a group: windows up to `trMin` are sent, those of `newRecord`
      come after it, and the rest of the group after those. */
  ghost predicate InGroup(w: Windowing, trMin: int, newRecord: seq<int>, rest: seq<SeriesRecord>, lastWindow: int) {
    && trMin == Start(w, trMin)
    && Extends(StartsOf(w, newRecord), trMin, lastWindow)
    && After(w, LastOr(StartsOf(w, newRecord), trMin), rest)
  }

  /** The windows a record contributes. */
  function Due(w: Windowing, kicked: seq<int>, inNextWin: bool): seq<int> {
    if inNextWin then Front(WindowsOf(w, kicked)) else WindowsOf(w, kicked)
  }

  /** Whether the last window of record `k` of a field goes on in record `k + 1`. */
  predicate GoesOnAfter(w: Windowing, g: seq<SeriesRecord>, k: nat)
    requires k < |g|
  {
    var kicked := Kick(g[k].rows);
    kicked != [] && k + 1 < |g| && g[k + 1].rows != []
    && Start(w, kicked[|kicked| - 1]) == Start(w, g[k + 1].rows[0].time)
  }

  /** How many windows wait unsent after the first `k` records of a field: a chunk that
      is full is sent before the next record is taken. */
  function Held(w: Windowing, chunkSize: nat, g: seq<SeriesRecord>, k: nat): nat
    requires k <= |g|
  {
    if k == 0 then 0
    else
      var before := Held(w, chunkSize, g, k - 1);
      (if before >= chunkSize then 0 else before) + |Due(w, Kick(g[k - 1].rows), GoesOnAfter(w, g, k - 1))|
  }

  /** The windows sent with a value for a field. */
  function Dues(w: Windowing, g: seq<SeriesRecord>): seq<int> {
    if g == [] then [] else Due(w, Kick(g[0].rows), GoesOnAfter(w, g, 0)) + Dues(w, g[1..])
  }

  /** The times of all values of a field. */
  function Values(g: seq<SeriesRecord>): seq<int> {
    if g == [] then [] else Kick(g[0].rows) + Values(g[1..])
  }

  lemma DueExtends(w: Windowing, c: SeriesRecord, reached: int, inNextWin: bool)
    requires forall i, j :: 0 <= i < j < |c.rows| ==> c.rows[i].time < c.rows[j].time
    requires forall i :: 0 <= i < |c.rows| ==> reached < Start(w, c.rows[i].time) && c.rows[i].time <= c.trMax
    ensures Extends(Due(w, Kick(c.rows), inNextWin), reached, Start(w, c.trMax))
  {
    hide Start, WindowsOf, Kick;
    var kicked := Kick(c.rows);
    KickMeaning(c.rows);
    WindowsMeaning(w, kicked);
    var all := WindowsOf(w, kicked);
    forall i | 0 <= i < |all| ensures reached < all[i] <= Start(w, c.trMax) {
      assert all[i] in all;
      var k :| 0 <= k < |kicked| && Start(w, kicked[k]) == all[i];
      var m :| 0 <= m < |c.rows| && c.rows[m].time == kicked[k];
      StartsApart(w, c.rows[m].time, c.trMax);
    }
  }

  lemma DueNothing(w: Windowing, rows: seq<RawRow>)
    requires Kick(rows) == []
    ensures Due(w, Kick(rows), true) == Due(w, Kick(rows), false) == []
  {
  }

  /** The last window a record contributes is before any later window `s`. */
  lemma LastDue(w: Windowing, kicked: seq<int>, inNextWin: bool, reached: int, s: int)
    requires kicked != [] && Ordered(kicked) && reached < s
    requires Start(w, kicked[|kicked| - 1]) < s || (inNextWin && Start(w, kicked[|kicked| - 1]) == s)
    ensures LastOr(Due(w, kicked, inNextWin), reached) < s
  {
    hide Start, WindowsOf;
    WindowsMeaning(w, kicked);
    WindowsEnd(w, kicked);
  }

  lemma RestAfterDue(w: Windowing, g: seq<SeriesRecord>, shardStart: int, reached: int)
    requires g != [] && ValidGroup(w, shardStart, g) && After(w, reached, g) && Kick(g[0].rows) != []
    ensures var kicked := Kick(g[0].rows);
            var inNextWin := |g| > 1 && Start(w, kicked[|kicked| - 1]) == Start(w, g[1].rows[0].time);
            var due := Due(w, kicked, inNextWin);
            After(w, LastOr(due, reached), g[1..])
  {
    hide Start, Kick, Due;
    var kicked := Kick(g[0].rows);
    var last := kicked[|kicked| - 1];
    var inNextWin := |g| > 1 && Start(w, last) == Start(w, g[1].rows[0].time);
    assert SegmentOf(shardStart, g[0], g[0]);
    KickMeaning(g[0].rows);
    var m :| 0 <= m < |g[0].rows| && g[0].rows[m].time == last;
    var rest := g[1..];
    forall k, i | 0 <= k < |rest| && 0 <= i < |rest[k].rows|
      ensures LastOr(Due(w, kicked, inNextWin), reached) < Start(w, rest[k].rows[i].time)
    {
      var t := rest[k].rows[i].time;
      NextSegment(w, shardStart, g, k + 1, i, m);
      StartsApart(w, last, g[1].rows[0].time);
      StartsApart(w, g[1].rows[0].time, t);
      LastDue(w, kicked, inNextWin, reached, Start(w, t));
    }
  }

  /** What the first record of a group adds. */
  lemma AbsorbFacts(w: Windowing, shardStart: int, g: seq<SeriesRecord>, reached: int)
    requires g != [] && ValidGroup(w, shardStart, g) && After(w, reached, g)
    ensures forall k :: 0 <= k < |g| ==> g[k].key == g[0].key && 0 < |g[k].rows| <= 65535
    ensures forall i, j :: 0 <= i < j < |Kick(g[0].rows)| ==> Kick(g[0].rows)[i] < Kick(g[0].rows)[j]
    ensures |Kick(g[0].rows)| <= |g[0].rows|
    ensures Kick(g[0].rows) != [] ==>
      var due := Due(w, Kick(g[0].rows), GoesOnAfter(w, g, 0));
      After(w, LastOr(due, reached), g[1..]) && Extends(due, reached, Start(w, g[0].trMax))
    ensures Kick(g[0].rows) == [] ==> After(w, reached, g[1..])
  {
    hide Start, Kick, Due, Extends;
    assert SegmentOf(shardStart, g[0], g[0]);
    KickMeaning(g[0].rows);
    if Kick(g[0].rows) != [] {
      RestAfterDue(w, g, shardStart, reached);
      DueExtends(w, g[0], reached, GoesOnAfter(w, g, 0));
    }
  }

  /** The next segment begins after any row of the first, and not after later rows. */
  lemma NextSegment(w: Windowing, shardStart: int, g: seq<SeriesRecord>, k: nat, i: nat, m: nat)
    requires ValidGroup(w, shardStart, g) && 0 < k < |g| && i < |g[k].rows| && m < |g[0].rows|
    ensures g[1].rows != [] && g[0].rows[m].time < g[1].rows[0].time <= g[k].rows[i].time
  {
    assert SegmentOf(shardStart, g[1], g[0]) && SegmentOf(shardStart, g[k], g[0]);
    assert Precedes(g[0], g[1]);
    assert k > 1 ==> Precedes(g[1], g[k]);
  }

  /** The windows the first record that has any contributes. */
  function FirstDue(w: Windowing, g: seq<SeriesRecord>): seq<int> {
    if g == [] then []
    else
      var due := Due(w, Kick(g[0].rows), GoesOnAfter(w, g, 0));
      if due != [] then due else FirstDue(w, g[1..])
  }

  /** A chunk of one row is sent for the first window, and the shard starts inside it:
      the row is moved off the start of the window. */
  predicate MovesFirst(w: Windowing, chunkSize: nat, shardStart: int, g: seq<SeriesRecord>)
    requires g != []
  {
    chunkSize == 1 && Start(w, g[0].trMin) < shardStart && FirstDue(w, g) == [Start(w, g[0].trMin)]
  }

  /** The window from which on the rows lie on windows again: the second one unless a
      moved row is followed by a window further off. */
  function SlipsTo(w: Windowing, chunkSize: nat, shardStart: int, g: seq<SeriesRecord>): int
    requires g != []
  {
    if MovesFirst(w, chunkSize, shardStart, g) && |Dues(w, g)| >= 2 then Dues(w, g)[1]
    else Start(w, g[0].trMin) + w.interval
  }

  /** The first chunk is the single row of the first window, which the shard starts in,
      and the next window sent is not the one after it. */
  predicate Slips(w: Windowing, chunkSize: nat, shardStart: int, g: seq<SeriesRecord>)
    requires g != []
  {
    && MovesFirst(w, chunkSize, shardStart, g) && |Dues(w, g)| >= 2
    && Dues(w, g)[1] > Start(w, g[0].trMin) + w.interval
  }

  /** The times of a column that starts in window `first` and reaches window `till`. */
  ghost function ColumnTimes(w: Windowing, shardStart: int, first: int, to: int, till: int): seq<int> {
    if to == first + w.interval then Clamp(shardStart, Dense(w, first, till))
    else [shardStart] + Lead(w, shardStart, to) + Dense(w, to, till)
  }

  function Joined<T>(xs: seq<seq<T>>): seq<T> {
    if xs == [] then [] else xs[0] + Joined(xs[1..])
  }

  lemma JoinedNothing<T>()
    ensures Joined<T>([]) == []
  {
  }

  lemma {:induction false} JoinedSnoc<T>(xs: seq<seq<T>>, x: seq<T>)
    ensures Joined(xs + [x]) == Joined(xs) + x
  {
    if xs == [] {
      assert xs + [x] == [x] && [x][1..] == [];
    } else {
      JoinedSnoc(xs[1..], x);
      assert (xs + [x])[0] == xs[0] && (xs + [x])[1..] == xs[1..] + [x];
    }
  }

  /** The input of a task: the segments field by field, every field once. */
  ghost predicate ValidInput(w: Windowing, chunkSize: nat, shardStart: int, fields: seq<seq<SeriesRecord>>) {
    && chunkSize > 0
    && (forall k :: 0 <= k < |fields| ==> fields[k] != [] && ValidGroup(w, shardStart, fields[k]))
    && (forall i, j :: 0 <= i < j < |fields| ==>
          fields[i] != [] && fields[j] != [] && fields[i][0].key != fields[j][0].key)
  }

  /** The windows of a series up to window `till`. */
  ghost function CoveredTill(w: Windowing, shardStart: int, rec: SeriesRecord, till: int): seq<int> {
    Clamp(shardStart, Dense(w, Start(w, rec.trMin), till))
  }

  /** The windows of a series, as every field of it has to cover them. */
  ghost function Covered(w: Windowing, shardStart: int, rec: SeriesRecord): seq<int> {
    CoveredTill(w, shardStart, rec, Start(w, rec.trMax))
  }

  /** The last window sent for a field: the last of the series if windows are left to
      send at the end, otherwise the last window with a value. */
  function EndsAt(w: Windowing, chunkSize: nat, g: seq<SeriesRecord>): int
    requires g != []
  {
    if Held(w, chunkSize, g, |g|) > 0 then Start(w, g[0].trMax)
    else LastOr(Dues(w, g), Start(w, g[0].trMin) - w.interval)
  }

  /** What is sent for one field: the windows of the series up to `EndsAt`, which is
      the last one exactly if windows are left to send at the end, and one window less
      exactly if the field slips. */
  ghost predicate Delivers(w: Windowing, chunkSize: nat, shardStart: int, field: seq<SeriesRecord>, sent: seq<Row>) {
    && field != []
    && var first, last, till := Start(w, field[0].trMin), Start(w, field[0].trMax), EndsAt(w, chunkSize, field);
       var slips, whole := Slips(w, chunkSize, shardStart, field), Held(w, chunkSize, field, |field|) > 0;
       && Times(sent) == ColumnTimes(w, shardStart, first, SlipsTo(w, chunkSize, shardStart, field), till)
       && till == Start(w, till)
       && (Times(sent) == CoveredTill(w, shardStart, field[0], till) <==> !slips)
       && (slips ==> |sent| == |CoveredTill(w, shardStart, field[0], till)| - 1)
       && (Times(sent) == Covered(w, shardStart, field[0]) <==> whole && !slips)
       && (!whole ==> till < last)
       && ValueStarts(w, sent) == Dues(w, field)
       && (sent == [] <==> Dues(w, field) == [])
  }

  /** The chunks sent for one field. */
  ghost predicate SentFor(w: Windowing, chunkSize: nat, shardStart: int, field: seq<SeriesRecord>,
                          chunks: seq<OutRecord>) {
    && field != [] && Delivers(w, chunkSize, shardStart, field, RowsOf(chunks))
    && (chunks == [] <==> Dues(w, field) == [])
    && forall i :: 0 <= i < |chunks| ==> chunks[i].key == field[0].key && chunks[i].rows != []
  }

  class FileSequenceAggregator {
    const w: Windowing
    const chunkSize: nat
    const shardStart: int
    var input: seq<SeriesRecord>
    var bufRecord: Option<SeriesRecord>
    var output: seq<OutRecord>
    var keep: bool
    var inNextWin: bool
    // the field being aggregated and the windows still to be sent
    var key: Key
    var trMin: int
    var trMax: int

    constructor (w: Windowing, chunkSize: nat, shardStart: int, input: seq<SeriesRecord>)
      ensures this.w == w && this.chunkSize == chunkSize && this.shardStart == shardStart
      ensures Pending() == input && bufRecord.None? && output == [] && keep
    {
      this.w, this.chunkSize, this.shardStart := w, chunkSize, shardStart;
      this.input := input;
      bufRecord, output, keep, inNextWin := None, [], true, false;
      key, trMin, trMax := Key("", 0, ""), 0, 0;
    }

    /** The records not yet consumed: the pushed-back one first. */
    ghost function Pending(): seq<SeriesRecord>
      reads this`input, this`bufRecord
    {
      (if bufRecord.Some? then [bufRecord.value] else []) + input
    }

    method NextRecord() returns (r: Option<SeriesRecord>)
      modifies this`input, this`bufRecord
      ensures r.None? ==> old(Pending()) == [] && Pending() == []
      ensures r.Some? ==> old(Pending()) == [r.value] + Pending()
      ensures bufRecord.None?
    {
      if bufRecord.Some? {
        r := bufRecord;
        bufRecord := None;
      } else if input == [] {
        r := None;
      } else {
        r := Some(input[0]);
        input := input[1..];
      }
    }

    method UnreadRecord(r: Option<SeriesRecord>)
      requires bufRecord.None?
      modifies this`bufRecord
      ensures Pending() == (if r.Some? then [r.value] else []) + old(Pending())
    {
      bufRecord := r;
    }

    /** Whether the last window of a record goes on in the next one of the field. */
    method InNextWindow(kicked: seq<int>)
      requires kicked != [] && bufRecord.None?
      modifies this`inNextWin, this`input, this`bufRecord
      ensures Pending() == old(Pending())
      ensures inNextWin <==> && Pending() != [] && Pending()[0].key == key && Pending()[0].rows != []
                             && Start(w, kicked[|kicked| - 1]) == Start(w, Pending()[0].rows[0].time)
    {
      hide Start;
      var next := NextRecord();
      UnreadRecord(next);
      if next.None? || next.value.rows == [] || next.value.key != key {
        inNextWin := false;
        return;
      }
      assert next.value == old(Pending())[0];
      var lastTime := kicked[|kicked| - 1];
      var startTime := Start(w, next.value.rows[0].time);
      StartsApart(w, next.value.rows[0].time, lastTime);
      StartsApart(w, lastTime, next.value.rows[0].time);
      inNextWin := startTime <= lastTime < startTime + w.interval;
    }

    /** One record of the field: nil rows are dropped, the rest is reduced. */
    method Absorb(rec: SeriesRecord, newRecord0: seq<int>, ghost n: nat) returns (newRecord: seq<int>)
      requires bufRecord.None? && n <= |Pending()| && rec.key == key
      requires n < |Pending()| ==> Pending()[n].key != key
      requires ValidGroup(w, shardStart, [rec] + Pending()[..n])
      requires InGroup(w, Start(w, trMin), newRecord0, [rec] + Pending()[..n], Start(w, rec.trMax))
      modifies this`inNextWin, this`input, this`bufRecord
      ensures Pending() == old(Pending())
      ensures InGroup(w, Start(w, trMin), newRecord, Pending()[..n], Start(w, rec.trMax))
      ensures StartsOf(w, newRecord)
           == StartsOf(w, newRecord0) + Due(w, Kick(rec.rows), GoesOnAfter(w, [rec] + Pending()[..n], 0))
    {
      hide Start, WindowsOf, Kick, StartsOf, Extends, ValidGroup, After;
      ghost var g := [rec] + Pending()[..n];
      assert g[0] == rec && g[1..] == Pending()[..n];
      newRecord := newRecord0;
      var kicked := KickNilRow(rec.rows);
      AbsorbFacts(w, shardStart, g, LastOr(StartsOf(w, newRecord0), Start(w, trMin)));
      if kicked == [] {
        DueNothing(w, rec.rows);
        return;
      }
      InNextWindow(kicked);
      ghost var a, reached := StartsOf(w, newRecord0), LastOr(StartsOf(w, newRecord0), Start(w, trMin));
      ghost var due := Due(w, kicked, inNextWin);
      assert inNextWin <==> GoesOnAfter(w, g, 0);
      newRecord := Reduce(w, kicked, inNextWin, newRecord0);
      ExtendsConcat(a, due, Start(w, trMin), Start(w, rec.trMax));
      inNextWin := false;
    }

    /** Sends a chunk: its rows continue the list of windows from `first`. */
    method SendRecord(re: seq<int>, appendTail: bool, ghost sent: seq<Row>, ghost first: int, ghost to: int)
      returns (rows: seq<Row>)
      requires re != [] && Extends(StartsOf(w, re), Start(w, trMin), trMax - w.interval)
      requires SentUpTo(w, shardStart, first, to, sent, trMin) && shardStart < first + w.interval
      requires trMax == Start(w, trMax)
      requires Follows(w, shardStart, first, to, sent, trMin, StartsOf(w, re), appendTail)
      modifies this`trMin, this`output
      ensures rows != [] && output == old(output) + [OutRecord(key, rows)]
      ensures ValueStarts(w, rows) == StartsOf(w, re)
      ensures appendTail ==> Times(sent + rows) == ColumnTimes(w, shardStart, first, to, trMax - w.interval)
      ensures !appendTail ==>
                Start(w, trMin) == LastOr(StartsOf(w, re), 0) && SentUpTo(w, shardStart, first, to, sent + rows, trMin)
      ensures !appendTail && Moved(w, trMin) ==> sent == [] && StartsOf(w, re) == [first] && first < shardStart
    {
      hide Start, Dense, Times, ValueStarts, Lead, SentUpTo, ColumnTimes, Follows;
      RisingStarts(w, re, Start(w, trMin), trMax - w.interval);
      StartsLength(w, re);
      ghost var e, last := Start(w, re[0]), Start(w, re[|re| - 1]);
      ghost var till := if appendTail then trMax - w.interval else last;
      StartShift(w, re[0]);
      BeforeChunk(w, shardStart, first, to, sent, trMin, e);
      rows := AppendRecWithNilRows(w, re, trMin, trMax, shardStart, appendTail);
      StartShift(w, re[|re| - 1]);
      StartShift(w, trMax);
      ValueStartsConcat(w, sent, rows);
      FirstToLast(w, re);
      assert StartsOf(w, re)[0] == e;
      Continue(w, shardStart, first, to, sent, trMin, rows, e, till, StartsOf(w, re), appendTail);
      if !appendTail {
        LastOfChunk(w, shardStart, first, to, sent, trMin, rows, e, StartsOf(w, re));
      }
      trMin := rows[|rows| - 1].time;
      output := output + [OutRecord(key, rows)];
    }

    /** The last chunk of a field, with the windows after its last row. */
    method SendTail(newRecord: seq<int>, ghost sent0: seq<Row>, ghost first: int, ghost to: int,
                    ghost before: seq<OutRecord>)
      returns (ghost sent: seq<Row>)
      requires InGroup(w, Start(w, trMin), newRecord, [], trMax - w.interval) && trMax == Start(w, trMax)
      requires SentUpTo(w, shardStart, first, to, sent0, trMin) && shardStart < first + w.interval
      requires newRecord != [] ==> Follows(w, shardStart, first, to, sent0, trMin, StartsOf(w, newRecord), true)
      requires Adds(output, before, key, sent0)
      modifies this`trMin, this`output
      ensures Adds(output, before, key, sent)
      ensures newRecord != [] ==> Times(sent) == ColumnTimes(w, shardStart, first, to, trMax - w.interval)
      ensures newRecord == [] ==> sent == sent0
      ensures ValueStarts(w, sent) == ValueStarts(w, sent0) + StartsOf(w, newRecord)
    {
      hide Start, Times, StartsOf, Extends, After, SentUpTo, ValueStarts, ColumnTimes, Follows;
      sent := sent0;
      StartsLength(w, newRecord);
      if newRecord != [] {
        var rows := SendRecord(newRecord, true, sent, first, to);
        AddsSnoc(output, before, key, sent, rows);
        ValueStartsConcat(w, sent, rows);
        sent := sent + rows;
      }
    }

    /** A full chunk in the middle of a field. */
    method SendChunk(newRecord: seq<int>, ghost rest: seq<SeriesRecord>, ghost sent0: seq<Row>, ghost first: int,
                     ghost to: int, ghost before: seq<OutRecord>)
      returns (ghost sent: seq<Row>)
      requires newRecord != [] && InGroup(w, Start(w, trMin), newRecord, rest, trMax - w.interval)
            && trMax == Start(w, trMax)
      requires SentUpTo(w, shardStart, first, to, sent0, trMin) && shardStart < first + w.interval
      requires Follows(w, shardStart, first, to, sent0, trMin, StartsOf(w, newRecord), false)
      requires Adds(output, before, key, sent0)
      modifies this`trMin, this`output
      ensures Adds(output, before, key, sent) && sent != []
      ensures InGroup(w, Start(w, trMin), [], rest, trMax - w.interval)
      ensures SentUpTo(w, shardStart, first, to, sent, trMin)
      ensures Moved(w, trMin) ==> sent0 == [] && StartsOf(w, newRecord) == [first] && first < shardStart
      ensures ValueStarts(w, sent) == ValueStarts(w, sent0) + StartsOf(w, newRecord)
    {
      hide Start, Times, After, ValueStarts, SentUpTo, Follows, Moved;
      StartsLength(w, newRecord);
      ghost var last := LastOr(StartsOf(w, newRecord), Start(w, trMin));
      var rows := SendRecord(newRecord, false, sent0, first, to);
      StartShift(w, trMin);
      AddsSnoc(output, before, key, sent0, rows);
      ValueStartsConcat(w, sent0, rows);
      sent := sent0 + rows;
    }

    /** One turn of the loop over the rest `g` of a field: a full chunk is sent and the
        record given back, otherwise the record is absorbed. */
    method TakeRecord(rec: SeriesRecord, newRecord0: seq<int>, ghost g: seq<SeriesRecord>, ghost sent0: seq<Row>,
                      ghost first: int, ghost to: int, ghost before: seq<OutRecord>)
      returns (newRecord: seq<int>, took: bool, ghost sent: seq<Row>)
      requires chunkSize > 0
      requires bufRecord.None? && rec.key == key && g != [] && g[0] == rec && g[1..] <= Pending()
      requires |g| - 1 < |Pending()| ==> Pending()[|g| - 1].key != key
      requires ValidGroup(w, shardStart, g)
      requires trMax == Start(w, trMax) && trMax - w.interval == Start(w, rec.trMax)
      requires InGroup(w, Start(w, trMin), newRecord0, g, trMax - w.interval)
      requires SentUpTo(w, shardStart, first, to, sent0, trMin) && shardStart < first + w.interval
      requires |newRecord0| >= chunkSize ==>
                 Follows(w, shardStart, first, to, sent0, trMin, StartsOf(w, newRecord0), false)
      requires Adds(output, before, key, sent0)
      modifies this`inNextWin, this`input, this`bufRecord, this`trMin, this`output
      ensures Pending() == (if took then [] else [rec]) + old(Pending())
      ensures Adds(output, before, key, sent)
      ensures SentUpTo(w, shardStart, first, to, sent, trMin)
      ensures InGroup(w, Start(w, trMin), newRecord, if took then g[1..] else g, trMax - w.interval)
      ensures took <==> |newRecord0| < chunkSize
      ensures took ==>
                StartsOf(w, newRecord) == StartsOf(w, newRecord0) + Due(w, Kick(rec.rows), GoesOnAfter(w, g, 0))
      ensures took ==> Start(w, trMin) < trMax - w.interval && sent == sent0 && trMin == old(trMin)
      ensures !took ==> newRecord == [] && sent != []
      ensures !took ==> ValueStarts(w, sent) == ValueStarts(w, sent0) + StartsOf(w, newRecord0)
      ensures !took && Moved(w, trMin) ==> sent0 == [] && StartsOf(w, newRecord0) == [first] && first < shardStart
    {
      hide *;
      ghost var n := |g| - 1;
      sent := sent0;
      took := |newRecord0| < chunkSize;
      if took {
        BeforeLast(w, Start(w, trMin), newRecord0, rec, g, trMax - w.interval, shardStart);
        assert Pending()[..n] == g[1..] && [rec] + Pending()[..n] == g;
        newRecord := Absorb(rec, newRecord0, n);
        assert [] + Pending() == Pending();
      } else {
        UnreadRecord(Some(rec));
        assert Pending() == [rec] + old(Pending());
        sent := SendChunk(newRecord0, g, sent0, first, to, before);
        newRecord := [];
      }
    }

    /** The same inside the loop over the first `n` records of `all`. */
    method TakeNext(rec: SeriesRecord, newRecord0: seq<int>, ghost all: seq<SeriesRecord>, ghost n: nat, ghost i: nat,
                    ghost sent0: seq<Row>, ghost before: seq<OutRecord>)
      returns (newRecord: seq<int>, took: bool, ghost sent: seq<Row>)
      requires i < n <= |all| && rec == all[i] && rec.key == key && bufRecord.None? && Pending() == all[i + 1..]
      requires (n < |all| ==> all[n].key != key) && ValidGroup(w, shardStart, all[i..n]) && rec.trMax == all[0].trMax
      requires chunkSize > 0 && trMax == Start(w, all[0].trMax) + w.interval
      requires Midway(w, shardStart, chunkSize, all, n, i, trMin, newRecord0, sent0) && Adds(output, before, key, sent0)
      modifies this`inNextWin, this`input, this`bufRecord, this`trMin, this`output
      ensures Pending() == all[if took then i + 1 else i..]
      ensures Midway(w, shardStart, chunkSize, all, n, if took then i + 1 else i, trMin, newRecord, sent)
           && Adds(output, before, key, sent)
      ensures !took ==> |newRecord| < |newRecord0|
    {
      hide *;
      ghost var trMin0, to, rest := trMin, SlipsTo(w, chunkSize, shardStart, all[..n]), Pending();
      MidwayParts(w, shardStart, chunkSize, all, n, i, trMin, newRecord0, sent0);
      RestOfGroup(all, n, i, rec, rest);
      if |newRecord0| >= chunkSize {
        MidwayFollows(w, shardStart, chunkSize, all, n, i, trMin, newRecord0, sent0, false);
      }
      newRecord, took, sent := TakeRecord(rec, newRecord0, all[i..n], sent0, Start(w, all[0].trMin), to, before);
      if took {
        MidwayTook(w, shardStart, chunkSize, all, n, i, trMin0, newRecord0, sent, newRecord);
      } else {
        MidwayFlushed(w, shardStart, chunkSize, all, n, i, trMin0, newRecord0, sent0, sent, trMin);
      }
    }

    /** The end of the loop. */
    method FinishField(newRecord: seq<int>, ghost all: seq<SeriesRecord>, ghost n: nat, ghost sent0: seq<Row>,
                       ghost before: seq<OutRecord>)
      returns (ghost sent: seq<Row>)
      requires Midway(w, shardStart, chunkSize, all, n, n, trMin, newRecord, sent0) && Adds(output, before, key, sent0)
      requires 0 < n <= |all| && trMax == Start(w, all[0].trMax) + w.interval && ValidGroup(w, shardStart, all[..n])
      modifies this`trMin, this`output
      ensures Adds(output, before, key, sent) && Delivers(w, chunkSize, shardStart, all[..n], sent)
    {
      hide Start, Times, ColumnTimes, Adds, ValueStarts, StartsOf, Midway, InGroup, SentUpTo, Delivers, Follows,
        SlipsTo, ValidGroup;
      ghost var reached, to := trMin, SlipsTo(w, chunkSize, shardStart, all[..n]);
      MidwayParts(w, shardStart, chunkSize, all, n, n, trMin, newRecord, sent0);
      assert all[n..n] == [];
      if newRecord != [] {
        MidwayFollows(w, shardStart, chunkSize, all, n, n, trMin, newRecord, sent0, true);
      }
      sent := SendTail(newRecord, sent0, Start(w, all[0].trMin), to, before);
      FieldDelivered(w, shardStart, chunkSize, all, n, reached, newRecord, sent0, sent);
    }

    /** All records of one field: the chunks sent for it are a list of windows from the
        first one of the series, which is unbroken exactly if the field does not slip and
        reaches the last one exactly if windows are left to send at the end. */
    method AggregateSameSchema(ghost n: nat) returns (ghost sent: seq<Row>)
      requires 0 < n <= |Pending()| && ValidGroup(w, shardStart, Pending()[..n]) && Pending()[0].key == key
      requires n < |Pending()| ==> Pending()[n].key != key
      requires chunkSize > 0
      requires trMin == Start(w, Pending()[0].trMin) - w.interval && trMax == Start(w, Pending()[0].trMax) + w.interval
      modifies this
      ensures key == old(key) && Pending() == old(Pending())[n..]
      ensures Adds(output, old(output), key, sent)
      ensures keep == (old(keep) && Pending() != [])
      ensures Delivers(w, chunkSize, shardStart, old(Pending())[..n], sent)
    {
      hide Start, ValidGroup, Adds, Pending, Midway, Delivers;
      ghost var all, i := Pending(), 0;
      var newRecord := [];
      sent := [];
      AddsNothing(output, key);
      MidwayStart(w, shardStart, chunkSize, all, n);
      while true
        invariant i <= n && Pending() == all[i..] && key == old(key) && keep == old(keep)
        invariant trMax == Start(w, all[0].trMax) + w.interval
        invariant Midway(w, shardStart, chunkSize, all, n, i, trMin, newRecord, sent)
        invariant Adds(output, old(output), key, sent)
        decreases n - i, |newRecord|
      {
        var inRecord := NextRecord();
        if inRecord.Some? {
          Peel(all, i, inRecord.value, Pending());
        }
        if inRecord.None? || inRecord.value.key != key {
          keep := keep && inRecord.Some?;
          UnreadRecord(inRecord);
          GroupEnds(w, shardStart, all, n, i);
          sent := FinishField(newRecord, all, n, sent, old(output));
          return;
        }
        GroupRest(w, shardStart, all, n, i);
        var took;
        newRecord, took, sent := TakeNext(inRecord.value, newRecord, all, n, i, sent, old(output));
        i := if took then i + 1 else i;
      }
    }

    /** All fields in order. */
    method Aggregate(ghost fields: seq<seq<SeriesRecord>>) returns (ghost parts: seq<seq<OutRecord>>)
      requires keep && output == [] && Pending() == Joined(fields) && ValidInput(w, chunkSize, shardStart, fields)
      modifies this
      ensures Pending() == [] && |parts| == |fields| && output == Joined(parts)
      ensures forall k :: 0 <= k < |parts| ==> SentFor(w, chunkSize, shardStart, fields[k], parts[k])
    {
      hide Start, ValidGroup, Adds, Pending, Delivers, SentFor, ValidInput, Joined;
      parts := [];
      ghost var k := 0;
      assert fields[0..] == fields;
      JoinedNothing<OutRecord>();
      while keep
        invariant k <= |fields| && |parts| == k
        invariant Pending() == Joined(fields[k..]) && output == Joined(parts)
        invariant forall j :: 0 <= j < k ==> SentFor(w, chunkSize, shardStart, fields[j], parts[j])
        invariant !keep ==> k == |fields| && Pending() == []
        decreases |fields| - k, keep
      {
        FieldAhead(w, chunkSize, shardStart, fields, k, Pending());
        var peeked := NextRecord();
        UnreadRecord(peeked);
        if peeked.None? {
          return;
        }
        assert peeked.value == fields[k][0];
        StartShift(w, peeked.value.trMin);
        StartShift(w, peeked.value.trMax);
        key := peeked.value.key;
        trMin := Start(w, peeked.value.trMin - w.interval);
        trMax := Start(w, peeked.value.trMax + w.interval);
        ghost var sent := AggregateSameSchema(|fields[k]|);
        SentForField(w, chunkSize, shardStart, fields[k], output, Joined(parts), sent);
        JoinedSnoc(parts, output[|Joined(parts)|..]);
        parts := parts + [output[|Joined(parts)|..]];
        k := k + 1;
        FieldAhead(w, chunkSize, shardStart, fields, k, Pending());
      }
    }
  }

  lemma FieldAhead(w: Windowing, chunkSize: nat, shardStart: int, fields: seq<seq<SeriesRecord>>, k: nat,
                   pending: seq<SeriesRecord>)
    requires ValidInput(w, chunkSize, shardStart, fields) && k <= |fields| && pending == Joined(fields[k..])
    ensures pending == [] <==> k == |fields|
    ensures k < |fields| ==> var n := |fields[k]|;
            && 0 < n <= |pending| && pending[..n] == fields[k] && pending[n..] == Joined(fields[k + 1..])
            && pending[0] == fields[k][0] && (n < |pending| ==> pending[n].key != fields[k][0].key)
            && ValidGroup(w, shardStart, pending[..n]) && chunkSize > 0
  {
    hide Start, ValidGroup;
    if k < |fields| {
      var rest := fields[k + 1..];
      assert fields[k..][1..] == rest;
      if k + 1 < |fields| {
        assert rest[0] == fields[k + 1];
        assert Joined(rest)[0] == fields[k + 1][0];
      }
    }
  }

  lemma SentForField(w: Windowing, chunkSize: nat, shardStart: int, field: seq<SeriesRecord>, output: seq<OutRecord>,
                     before: seq<OutRecord>, sent: seq<Row>)
    requires field != [] && Adds(output, before, field[0].key, sent) && Delivers(w, chunkSize, shardStart, field, sent)
    ensures output == before + output[|before|..] && SentFor(w, chunkSize, shardStart, field, output[|before|..])
  {
    hide Start, Times, Held, CoveredTill, Covered, EndsAt, ValueStarts, Dues, Slips, SlipsTo, ColumnTimes;
    var chunks := output[|before|..];
    assert forall i :: 0 <= i < |chunks| ==> chunks[i] == output[|before| + i];
  }

  lemma StartsLength(w: Windowing, rows: seq<int>)
    ensures |StartsOf(w, rows)| == |rows|
  {
  }

  /** The last time sent is not the start of a window. */
  predicate Moved(w: Windowing, trMin: int) {
    trMin != Start(w, trMin)
  }

  /** The rows sent so far are none, or those of the windows from `first` up to the one of
      `trMin`, the last one with a value, or a single row moved to the start of the shard. */
  ghost predicate SentUpTo(w: Windowing, shardStart: int, first: int, to: int, sent: seq<Row>, trMin: int) {
    && first == Start(w, first) && Start(w, trMin) == LastOr(ValueStarts(w, sent), first - w.interval)
    && if sent == [] then trMin == first - w.interval
       else if Moved(w, trMin) then
         && first < trMin == shardStart && Start(w, trMin) == first && Times(sent) == [shardStart]
         && ValueStarts(w, sent) == [first]
       else
         && first <= trMin && (to == first + w.interval || first + w.interval < to == Start(w, to) <= trMin)
         && Times(sent) == ColumnTimes(w, shardStart, first, to, trMin)
  }

  /** The next chunk: after a moved row it begins in window `to`; the first one is not
      followed by a gap, or it is itself moved. */
  ghost predicate Follows(w: Windowing, shardStart: int, first: int, to: int, sent: seq<Row>, trMin: int,
                          starts: seq<int>, tail: bool) {
    && starts != []
    && (Moved(w, trMin) ==> starts[0] == to)
    && (sent == [] ==> to == first + w.interval || (!tail && starts == [first] && first < shardStart))
  }

  lemma RisingStarts(w: Windowing, re: seq<int>, trMin: int, lastWindow: int)
    requires re != [] && Extends(StartsOf(w, re), trMin, lastWindow)
    ensures Rising(w, re) && trMin < Start(w, re[0]) && Start(w, re[|re| - 1]) <= lastWindow
    ensures LastOr(StartsOf(w, re), 0) == Start(w, re[|re| - 1])
  {
    hide Start;
    var a := StartsOf(w, re);
    assert forall i :: 0 <= i < |re| ==> a[i] == Start(w, re[i]);
  }

  /** Where the next chunk begins. */
  lemma BeforeChunk(w: Windowing, shardStart: int, first: int, to: int, sent: seq<Row>, trMin: int, e: int)
    requires SentUpTo(w, shardStart, first, to, sent, trMin) && shardStart < first + w.interval
    requires Start(w, trMin) < e == Start(w, e)
    ensures trMin < e && first <= e
    ensures shardStart <= trMin || (trMin == Start(w, trMin) && shardStart < trMin + w.interval + w.interval)
    ensures sent != [] ==> shardStart < e && (!Moved(w, trMin) ==> shardStart < trMin + w.interval)
    ensures sent == [] ==> !Moved(w, trMin)
  {
    hide Start, Times, ValueStarts, ColumnTimes;
    StartsApart(w, trMin, e);
    StartShift(w, first);
  }

  /** The rows of a chunk continue the list of windows. */
  lemma Continue(w: Windowing, shardStart: int, first: int, to: int, sent: seq<Row>, trMin: int, rows: seq<Row>, e: int,
                 till: int, starts: seq<int>, tail: bool)
    requires SentUpTo(w, shardStart, first, to, sent, trMin) && shardStart < first + w.interval
    requires Start(w, trMin) < e == Start(w, e) <= till == Start(w, till)
    requires Follows(w, shardStart, first, to, sent, trMin, starts, tail) && starts[0] == e
    requires Times(rows) == Clamp(shardStart, Lead(w, trMin, e) + Dense(w, e, till))
    requires !Moved(w, trMin) ==> Times(rows) == Clamp(shardStart, Dense(w, trMin + w.interval, till))
    ensures sent == [] ==> Times(rows) == Clamp(shardStart, Dense(w, first, till))
    ensures tail || sent != [] || to == first + w.interval ==>
              Times(sent + rows) == ColumnTimes(w, shardStart, first, to, till)
    ensures sent != [] ==> to == first + w.interval || first + w.interval < to == Start(w, to) <= till
  {
    hide Start, Times, Dense, Clamp, ValueStarts, Lead, ColumnTimes;
    BeforeChunk(w, shardStart, first, to, sent, trMin, e);
    if sent == [] {
      assert sent + rows == rows;
      assert trMin + w.interval == first;
      ColumnUnbroken(w, shardStart, first, till);
    } else if Moved(w, trMin) {
      TimesConcat(sent, rows);
      StartsApart(w, trMin, to);
      AfterMoved(w, shardStart, first, to, till);
    } else {
      NextTimes(w, shardStart, first, to, sent, trMin, rows, e, till);
    }
  }

  lemma NextTimes(w: Windowing, shardStart: int, first: int, to: int, sent: seq<Row>, trMin: int, rows: seq<Row>,
                  e: int, till: int)
    requires first == Start(w, first) <= trMin == Start(w, trMin) < e == Start(w, e) <= till == Start(w, till)
    requires shardStart < first + w.interval
    requires to == first + w.interval || first + w.interval < to == Start(w, to) <= trMin
    requires Times(sent) == ColumnTimes(w, shardStart, first, to, trMin)
    requires Times(rows) == Clamp(shardStart, Dense(w, trMin + w.interval, till))
    ensures Times(sent + rows) == ColumnTimes(w, shardStart, first, to, till)
  {
    hide Start, Times, Dense, Clamp, ColumnTimes;
    TimesConcat(sent, rows);
    StartsApart(w, trMin, till);
    DenseHead(w, trMin + w.interval, till);
    ClampNothing(shardStart, Dense(w, trMin + w.interval, till));
    ColumnOn(w, shardStart, first, to, trMin, till);
  }

  lemma ColumnUnbroken(w: Windowing, shardStart: int, first: int, till: int)
    ensures ColumnTimes(w, shardStart, first, first + w.interval, till) == Clamp(shardStart, Dense(w, first, till))
  {
  }

  lemma ClampNothing(c: int, a: seq<int>)
    requires a == [] || c <= a[0]
    ensures Clamp(c, a) == a
  {
  }

  /** A column goes on after window `a`. */
  lemma ColumnOn(w: Windowing, shardStart: int, first: int, to: int, a: int, till: int)
    requires first == Start(w, first) <= a == Start(w, a) < till == Start(w, till) && shardStart < first + w.interval
    requires to == first + w.interval || (first + w.interval < to == Start(w, to) <= a)
    ensures ColumnTimes(w, shardStart, first, to, a) + Dense(w, a + w.interval, till)
         == ColumnTimes(w, shardStart, first, to, till)
  {
    hide Start, Dense, Clamp, Lead;
    var from := if to == first + w.interval then first else to;
    StartsApart(w, a, till);
    StartShift(w, from);
    DenseOn(w, from - w.interval, a, till);
    assert from - w.interval + w.interval == from;
    if to == first + w.interval {
      DenseHead(w, first, a);
      DenseHead(w, a + w.interval, till);
      ClampNothing(shardStart, Dense(w, a + w.interval, till));
      ClampConcat(shardStart, Dense(w, first, a), Dense(w, a + w.interval, till));
    }
  }

  /** The column after a single moved row. */
  lemma AfterMoved(w: Windowing, shardStart: int, first: int, to: int, till: int)
    requires first == Start(w, first) < shardStart < first + w.interval <= to == Start(w, to) <= till
    ensures Clamp(shardStart, Lead(w, shardStart, to) + Dense(w, to, till))
         == Lead(w, shardStart, to) + Dense(w, to, till)
    ensures [shardStart] + (Lead(w, shardStart, to) + Dense(w, to, till)) == ColumnTimes(w, shardStart, first, to, till)
    ensures to == first + w.interval || first + w.interval < to
  {
    hide Start, Dense;
    var lead := Lead(w, shardStart, to);
    StartUnique(w, shardStart, first, first);
    NoLead(w, shardStart);
    DenseHead(w, to, till);
    if to == first + w.interval {
      FirstTwo(w, first, till);
      assert lead + Dense(w, to, till) == Dense(w, to, till);
    } else {
      MovedStartLosesWindow(w, shardStart, to);
      assert [shardStart] + lead + Dense(w, to, till) == [shardStart] + (lead + Dense(w, to, till));
    }
  }

  lemma FirstTwo(w: Windowing, first: int, till: int)
    requires first <= till
    ensures Dense(w, first, till) == [first] + Dense(w, first + w.interval, till)
  {
  }

  lemma DenseHead(w: Windowing, a: int, b: int)
    ensures a <= b ==> Dense(w, a, b) != [] && Dense(w, a, b)[0] == a
    ensures a > b ==> Dense(w, a, b) == []
  {
  }

  lemma ClampConcat(c: int, a: seq<int>, b: seq<int>)
    requires a != [] && (b == [] || c <= b[0])
    ensures Clamp(c, a) + Clamp(c, b) == Clamp(c, a + b)
  {
    assert Clamp(c, b) == b && (a + b)[0] == a[0];
    if a[0] < c {
      assert (a + b)[1..] == a[1..] + b;
      assert [c] + (a + b)[1..] == [c] + a[1..] + b;
    }
  }

  lemma {:induction false} DenseEnds(w: Windowing, a: int, b: int)
    requires a <= b && Aligned(b - a, w.interval)
    ensures Dense(w, a, b) != [] && Dense(w, a, b)[|Dense(w, a, b)| - 1] == b
  {
    DenseSnoc(w, a, b);
  }

  lemma ClampEnds(c: int, a: seq<int>, last: int)
    requires a != [] && a[|a| - 1] == last && (|a| > 1 || c <= last)
    ensures Clamp(c, a) != [] && Clamp(c, a)[|Clamp(c, a)| - 1] == last
  {
  }

  lemma RowsEnd(rows: seq<Row>, ts: seq<int>, last: int)
    requires Times(rows) == ts && ts != [] && ts[|ts| - 1] == last
    ensures rows != [] && rows[|rows| - 1].time == last
  {
    TimesLength(rows);
  }

  /** The last time of a chunk is the start of a window, unless the chunk is a single row
      in the first window that was moved. */
  lemma LastOfChunk(w: Windowing, shardStart: int, first: int, to: int, sent: seq<Row>, trMin: int, rows: seq<Row>,
                    e: int, starts: seq<int>)
    requires SentUpTo(w, shardStart, first, to, sent, trMin) && shardStart < first + w.interval
    requires starts != [] && starts[0] == e && starts[|starts| - 1] == Start(w, starts[|starts| - 1])
    requires Start(w, trMin) < e == Start(w, e) <= starts[|starts| - 1]
    requires forall i, j :: 0 <= i < j < |starts| ==> starts[i] < starts[j]
    requires Follows(w, shardStart, first, to, sent, trMin, starts, false)
    requires Times(rows) == Clamp(shardStart, Lead(w, trMin, e) + Dense(w, e, starts[|starts| - 1]))
    requires !Moved(w, trMin) ==> Times(rows) == Clamp(shardStart, Dense(w, trMin + w.interval, starts[|starts| - 1]))
    requires ValueStarts(w, sent + rows) == ValueStarts(w, sent) + starts
    ensures rows != []
    ensures var last, t := starts[|starts| - 1], rows[|rows| - 1].time;
            && Start(w, t) == last && SentUpTo(w, shardStart, first, to, sent + rows, t)
            && (Moved(w, t) ==> sent == [] && starts == [first] && first < shardStart)
  {
    hide Start, Times, Dense, Clamp, ValueStarts, Lead, ColumnTimes;
    var last := starts[|starts| - 1];
    Continue(w, shardStart, first, to, sent, trMin, rows, e, last, starts, false);
    BeforeChunk(w, shardStart, first, to, sent, trMin, e);
    StartsApart(w, e, last);
    DenseEnds(w, e, last);
    if sent == [] {
      assert first <= last;
      FirstChunk(w, shardStart, first, trMin, rows, last);
      NoTimes(w);
      assert sent + rows == rows;
      if first == last < shardStart {
        StartUnique(w, shardStart, first, first);
        assert starts == [first];
      }
    } else {
      LaterChunk(w, shardStart, trMin, rows, e, last);
    }
  }

  lemma FirstChunk(w: Windowing, shardStart: int, first: int, trMin: int, rows: seq<Row>, last: int)
    requires first == Start(w, first) <= last == Start(w, last) && shardStart < first + w.interval
          && trMin == first - w.interval
    requires Times(rows) == Clamp(shardStart, Dense(w, first, last))
    ensures rows != []
    ensures rows[|rows| - 1].time == if first == last && first < shardStart then shardStart else last
    ensures first == last < shardStart ==> Times(rows) == [shardStart]
  {
    hide Start, Times, Dense;
    StartsApart(w, first, last);
    DenseEnds(w, first, last);
    DenseHead(w, first, last);
    if first == last < shardStart {
      FirstTwo(w, first, last);
      DenseEmpty(w, first + w.interval, last);
      RowsEnd(rows, [shardStart], shardStart);
    } else {
      if first < last {
        FirstTwo(w, first, last);
        DenseHead(w, first + w.interval, last);
      }
      ClampEnds(shardStart, Dense(w, first, last), last);
      RowsEnd(rows, Clamp(shardStart, Dense(w, first, last)), last);
    }
  }

  lemma LaterChunk(w: Windowing, shardStart: int, trMin: int, rows: seq<Row>, e: int, last: int)
    requires Start(w, trMin) < e == Start(w, e) <= last == Start(w, last) && shardStart < e
    requires Dense(w, e, last) != [] && Dense(w, e, last)[|Dense(w, e, last)| - 1] == last
    requires Times(rows) == Clamp(shardStart, Lead(w, trMin, e) + Dense(w, e, last))
    ensures rows != [] && rows[|rows| - 1].time == last
  {
    hide Start, Times, Dense, Lead;
    var ts := Lead(w, trMin, e) + Dense(w, e, last);
    assert ts[|ts| - 1] == last;
    ClampEnds(shardStart, ts, last);
    RowsEnd(rows, Clamp(shardStart, ts), last);
  }

  /** The rows of a list of chunks. */
  function RowsOf(outs: seq<OutRecord>): seq<Row> {
    if outs == [] then [] else RowsOf(outs[..|outs| - 1]) + outs[|outs| - 1].rows
  }

  /** The output grew by non-empty chunks of one field with the rows `sent`. */
  ghost predicate Adds(output: seq<OutRecord>, before: seq<OutRecord>, key: Key, sent: seq<Row>) {
    && |before| <= |output| && output[..|before|] == before
    && RowsOf(output[|before|..]) == sent
    && forall i :: |before| <= i < |output| ==> output[i].key == key && output[i].rows != []
  }

  lemma AddsSnoc(output: seq<OutRecord>, before: seq<OutRecord>, key: Key, sent: seq<Row>, rows: seq<Row>)
    requires output != [] && Adds(output[..|output| - 1], before, key, sent)
    requires output[|output| - 1] == OutRecord(key, rows) && rows != []
    ensures Adds(output, before, key, sent + rows)
  {
    var n := |output| - 1;
    var tail := output[|before|..];
    assert tail[..|tail| - 1] == output[..n][|before|..];
    assert output[..|before|] == output[..n][..|before|];
    assert forall i :: 0 <= i < n ==> output[..n][i] == output[i];
  }

  /** Nothing of a group is before its first window. */
  lemma AllAfter(w: Windowing, shardStart: int, g: seq<SeriesRecord>)
    requires g != [] && ValidGroup(w, shardStart, g)
    ensures After(w, Start(w, g[0].trMin) - w.interval, g)
    ensures shardStart < Start(w, g[0].trMin) + w.interval
  {
    hide Start;
    assert SegmentOf(shardStart, g[0], g[0]);
    assert shardStart <= g[0].trMin <= g[0].rows[0].time;
    StartsApart(w, g[0].trMin, g[0].trMin);
    forall k, i | 0 <= k < |g| && 0 <= i < |g[k].rows|
      ensures Start(w, g[0].trMin) - w.interval < Start(w, g[k].rows[i].time)
    {
      assert SegmentOf(shardStart, g[k], g[0]);
      StartsApart(w, g[0].trMin, g[k].rows[i].time);
    }
  }

  lemma GroupStart(w: Windowing, shardStart: int, g: seq<SeriesRecord>, to: int)
    requires g != [] && ValidGroup(w, shardStart, g)
    ensures var first := Start(w, g[0].trMin);
            && InGroup(w, first - w.interval, [], g, Start(w, g[0].trMax))
            && SentUpTo(w, shardStart, first, to, [], first - w.interval)
            && shardStart < first + w.interval
            && Start(w, Start(w, g[0].trMax) + w.interval) == Start(w, g[0].trMax) + w.interval
  {
    hide Start, After, ValidGroup;
    var first := Start(w, g[0].trMin);
    StartShift(w, g[0].trMin);
    StartShift(w, first);
    StartShift(w, g[0].trMax);
    StartShift(w, Start(w, g[0].trMax));
    AllAfter(w, shardStart, g);
  }

  lemma AddsNothing(output: seq<OutRecord>, key: Key)
    ensures Adds(output, output, key, [])
  {
    assert output[|output|..] == [];
  }

  /** Part of a field is as well ordered as the field. */
  lemma PartOfGroup(w: Windowing, shardStart: int, g: seq<SeriesRecord>, i: nat)
    requires i < |g| && ValidGroup(w, shardStart, g)
    ensures ValidGroup(w, shardStart, g[i..])
  {
    hide SegmentOf, Precedes;
    var r := g[i..];
    assert SegmentOf(shardStart, g[i], g[0]);
    forall k | 0 <= k < |r| ensures SegmentOf(shardStart, r[k], r[0]) {
      assert SegmentOf(shardStart, g[i + k], g[0]);
      SameSegment(shardStart, g[i + k], g[0], g[i]);
    }
    forall k, l | 0 <= k < l < |r| ensures Precedes(r[k], r[l]) {
      assert Precedes(g[i + k], g[i + l]);
    }
  }

  lemma SameSegment(shardStart: int, c: SeriesRecord, a: SeriesRecord, b: SeriesRecord)
    requires SegmentOf(shardStart, c, a) && SegmentOf(shardStart, b, a)
    ensures SegmentOf(shardStart, c, b)
  {
    hide Proper;
  }

  lemma GroupRest(w: Windowing, shardStart: int, all: seq<SeriesRecord>, n: nat, i: nat)
    requires 0 < n <= |all| && i <= n && i < |all| && ValidGroup(w, shardStart, all[..n])
    requires n < |all| ==> all[n].key != all[0].key
    ensures all[i].key == all[0].key <==> i < n
    ensures i < n ==> all[i..n] == [all[i]] + all[i + 1..n] && ValidGroup(w, shardStart, all[i..n])
    ensures i < n ==> all[i].trMax == all[0].trMax
  {
    hide Precedes, Proper;
    var g := all[..n];
    assert g[0] == all[0];
    if i < n {
      assert g[i] == all[i] && SegmentOf(shardStart, g[i], g[0]);
      PartOfGroup(w, shardStart, g, i);
      assert g[i..] == all[i..n];
    }
  }

  /** The loop over a field leaves it only at its end. */
  lemma GroupEnds(w: Windowing, shardStart: int, all: seq<SeriesRecord>, n: nat, i: nat)
    requires 0 < n <= |all| && i <= n && ValidGroup(w, shardStart, all[..n])
    requires n < |all| ==> all[n].key != all[0].key
    requires i == |all| || all[i].key != all[0].key
    ensures i == n && all[i..n] == []
  {
    if i < |all| {
      GroupRest(w, shardStart, all, n, i);
    }
  }

  lemma RestOfGroup(all: seq<SeriesRecord>, n: nat, i: nat, r: SeriesRecord, rest: seq<SeriesRecord>)
    requires i < n <= |all| && r == all[i] && rest == all[i + 1..]
    ensures var g := all[i..n];
            && g[0] == r && g[1..] == all[i + 1..n] && g[1..] <= rest
            && (|g| - 1 < |rest| ==> rest[|g| - 1] == all[n]) && (|g| - 1 == |rest| ==> n == |all|)
    ensures [r] + rest == all[i..] && [] + rest == all[i + 1..]
  {
  }

  lemma Peel(all: seq<SeriesRecord>, i: nat, r: SeriesRecord, rest: seq<SeriesRecord>)
    requires i <= |all| && all[i..] == [r] + rest
    ensures i < |all| && r == all[i] && rest == all[i + 1..]
  {
    assert r == all[i..][0] && rest == all[i..][1..];
  }

  /** What is known of the first record that has windows due, after some of the records
      of field `g`. */
  ghost predicate Opening(w: Windowing, chunkSize: nat, shardStart: int, g: seq<SeriesRecord>, rest: seq<SeriesRecord>,
                          trMin: int, newRecord: seq<int>, sent: seq<Row>)
    requires g != []
  {
    && (sent == [] && newRecord == [] ==> FirstDue(w, rest) == FirstDue(w, g))
    && (sent == [] && newRecord != [] && chunkSize == 1 ==> StartsOf(w, newRecord) == FirstDue(w, g))
    && (Moved(w, trMin) ==> MovesFirst(w, chunkSize, shardStart, g))
  }

  /** The loop over a field after `i` of its `n` records. */
  ghost predicate Midway(w: Windowing, shardStart: int, chunkSize: nat, all: seq<SeriesRecord>, n: nat, i: nat,
                         trMin: int, newRecord: seq<int>, sent: seq<Row>) {
    && 0 < n <= |all| && i <= n
    && InGroup(w, Start(w, trMin), newRecord, all[i..n], Start(w, all[0].trMax))
    && SentUpTo(w, shardStart, Start(w, all[0].trMin), SlipsTo(w, chunkSize, shardStart, all[..n]), sent, trMin)
    && shardStart < Start(w, all[0].trMin) + w.interval
    && Start(w, Start(w, all[0].trMax) + w.interval) == Start(w, all[0].trMax) + w.interval
    && (i == n ==> Start(w, trMin) < Start(w, all[0].trMax))
    && (|newRecord| == Held(w, chunkSize, all[..n], i)
     || (i < n && Held(w, chunkSize, all[..n], i) >= chunkSize && newRecord == []))
    && ValueStarts(w, sent) + StartsOf(w, newRecord) + Dues(w, all[i..n]) == Dues(w, all[..n])
    && Opening(w, chunkSize, shardStart, all[..n], all[i..n], trMin, newRecord, sent)
  }

  lemma MidwayStart(w: Windowing, shardStart: int, chunkSize: nat, all: seq<SeriesRecord>, n: nat)
    requires 0 < n <= |all| && ValidGroup(w, shardStart, all[..n])
    ensures Midway(w, shardStart, chunkSize, all, n, 0, Start(w, all[0].trMin) - w.interval, [], [])
  {
    hide Start, ValidGroup, InGroup, SentUpTo, Dues, Held, ValueStarts, StartsOf, SlipsTo, FirstDue, MovesFirst;
    GroupStart(w, shardStart, all[..n], SlipsTo(w, chunkSize, shardStart, all[..n]));
    assert all[0..n] == all[..n] && all[..n][0] == all[0];
    NothingYet(w, chunkSize, all[..n]);
    StartShift(w, all[0].trMin);
    StartShift(w, Start(w, all[0].trMin));
  }

  lemma MidwayParts(w: Windowing, shardStart: int, chunkSize: nat, all: seq<SeriesRecord>, n: nat, i: nat, trMin: int,
                    newRecord: seq<int>, sent: seq<Row>)
    requires Midway(w, shardStart, chunkSize, all, n, i, trMin, newRecord, sent)
    ensures InGroup(w, Start(w, trMin), newRecord, all[i..n], Start(w, all[0].trMax))
    ensures SentUpTo(w, shardStart, Start(w, all[0].trMin), SlipsTo(w, chunkSize, shardStart, all[..n]), sent, trMin)
    ensures shardStart < Start(w, all[0].trMin) + w.interval
    ensures Start(w, Start(w, all[0].trMax) + w.interval) == Start(w, all[0].trMax) + w.interval
  {
    hide Start, InGroup, SentUpTo, Dues, Held, ValueStarts, StartsOf, SlipsTo, Opening;
  }

  /** A chunk sent now begins where it has to: after a moved row in the second window due. */
  lemma MidwayFollows(w: Windowing, shardStart: int, chunkSize: nat, all: seq<SeriesRecord>, n: nat, i: nat, trMin: int,
                      newRecord: seq<int>, sent: seq<Row>, tail: bool)
    requires Midway(w, shardStart, chunkSize, all, n, i, trMin, newRecord, sent) && newRecord != []
    requires tail ==> i == n
    ensures Follows(w, shardStart, Start(w, all[0].trMin), SlipsTo(w, chunkSize, shardStart, all[..n]), sent, trMin,
                    StartsOf(w, newRecord), tail)
  {
    hide Start, InGroup, Dues, Held, ValueStarts, FirstDue, Times, ColumnTimes;
    var g, starts := all[..n], StartsOf(w, newRecord);
    var first := Start(w, g[0].trMin);
    assert g[0] == all[0];
    StartShift(w, g[0].trMin);
    StartShift(w, newRecord[0]);
    StartShift(w, first);
    NothingYet(w, chunkSize, g);
    if sent == [] {
      assert ValueStarts(w, sent) + starts + Dues(w, all[i..n]) == starts + Dues(w, all[i..n]);
      if tail {
        assert all[i..n] == [];
      }
    } else if Moved(w, trMin) {
      assert Dues(w, g)[1] == starts[0];
    }
  }

  lemma MidwayTook(w: Windowing, shardStart: int, chunkSize: nat, all: seq<SeriesRecord>, n: nat, i: nat, trMin: int,
                   newRecord0: seq<int>, sent: seq<Row>, newRecord: seq<int>)
    requires Midway(w, shardStart, chunkSize, all, n, i, trMin, newRecord0, sent) && i < n && |newRecord0| < chunkSize
    requires StartsOf(w, newRecord) == StartsOf(w, newRecord0) + Due(w, Kick(all[i].rows), GoesOnAfter(w, all[i..n], 0))
    requires InGroup(w, Start(w, trMin), newRecord, all[i + 1..n], Start(w, all[0].trMax))
          && Start(w, trMin) < Start(w, all[0].trMax)
    ensures Midway(w, shardStart, chunkSize, all, n, i + 1, trMin, newRecord, sent)
  {
    hide Start, InGroup, SentUpTo, Dues, Held, ValueStarts, StartsOf, Due, Kick, GoesOnAfter, SlipsTo, FirstDue,
      MovesFirst, Moved;
    HeldNext(w, chunkSize, all, n, i);
    StartsLength(w, newRecord0);
    StartsLength(w, newRecord);
    NothingYet(w, chunkSize, all);
    FirstDueNext(w, all, n, i);
  }

  lemma FirstDueNext(w: Windowing, all: seq<SeriesRecord>, n: nat, i: nat)
    requires i < n <= |all|
    ensures var due := Due(w, Kick(all[i].rows), GoesOnAfter(w, all[i..n], 0));
            FirstDue(w, all[i..n]) == if due != [] then due else FirstDue(w, all[i + 1..n])
  {
    hide Due, Kick, GoesOnAfter;
    assert all[i..n][0] == all[i] && all[i..n][1..] == all[i + 1..n];
  }

  lemma MidwayFlushed(w: Windowing, shardStart: int, chunkSize: nat, all: seq<SeriesRecord>, n: nat, i: nat, trMin: int,
                      newRecord: seq<int>, sent0: seq<Row>, sent: seq<Row>, trMin1: int)
    requires Midway(w, shardStart, chunkSize, all, n, i, trMin, newRecord, sent0) && i < n
          && |newRecord| >= chunkSize > 0
    requires InGroup(w, Start(w, trMin1), [], all[i..n], Start(w, all[0].trMax)) && sent != []
    requires SentUpTo(w, shardStart, Start(w, all[0].trMin), SlipsTo(w, chunkSize, shardStart, all[..n]), sent, trMin1)
    requires Moved(w, trMin1) ==>
               sent0 == [] && StartsOf(w, newRecord) == [Start(w, all[0].trMin)] && Start(w, all[0].trMin) < shardStart
    requires ValueStarts(w, sent) == ValueStarts(w, sent0) + StartsOf(w, newRecord)
    ensures Midway(w, shardStart, chunkSize, all, n, i, trMin1, [], sent)
  {
    hide Start, InGroup, SentUpTo, Dues, Held, ValueStarts, SlipsTo, FirstDue;
    StartsLength(w, newRecord);
  }

  /** At the end of the loop: the rest was sent with a tail up to the last window, or
      there was none. */
  lemma FieldDelivered(w: Windowing, shardStart: int, chunkSize: nat, all: seq<SeriesRecord>, n: nat, trMin: int,
                       newRecord: seq<int>, sent0: seq<Row>, sent: seq<Row>)
    requires Midway(w, shardStart, chunkSize, all, n, n, trMin, newRecord, sent0) && ValidGroup(w, shardStart, all[..n])
    requires newRecord == [] ==> sent == sent0
    requires newRecord != [] ==>
      Times(sent) == ColumnTimes(w, shardStart, Start(w, all[0].trMin), SlipsTo(w, chunkSize, shardStart, all[..n]),
                                 Start(w, all[0].trMax))
    requires ValueStarts(w, sent) == ValueStarts(w, sent0) + StartsOf(w, newRecord)
    ensures Delivers(w, chunkSize, shardStart, all[..n], sent)
  {
    hide Start, InGroup, SentUpTo, Held, ValueStarts, Dues, Times, ColumnTimes, Dense, Clamp, SlipsTo, Slips,
      ValidGroup, StartsOf, Opening;
    var g := all[..n];
    var first, last, to := Start(w, g[0].trMin), Start(w, g[0].trMax), SlipsTo(w, chunkSize, shardStart, g);
    assert all[n..n] == [] && g[0] == all[0];
    NothingYet(w, chunkSize, g);
    StartsLength(w, newRecord);
    StartShift(w, g[0].trMax);
    if newRecord == [] {
      TimesUpTo(w, shardStart, chunkSize, g, sent, trMin);
      StartShift(w, trMin);
    } else {
      SomethingSent(w, sent, ValueStarts(w, sent0), newRecord);
    }
    ColumnIsCovered(w, shardStart, chunkSize, g, sent);
  }

  /** Nothing left to send at the end. */
  lemma TimesUpTo(w: Windowing, shardStart: int, chunkSize: nat, g: seq<SeriesRecord>, sent: seq<Row>, trMin: int)
    requires g != [] && SentUpTo(w, shardStart, Start(w, g[0].trMin), SlipsTo(w, chunkSize, shardStart, g), sent, trMin)
    requires ValueStarts(w, sent) == Dues(w, g)
    ensures Times(sent) == ColumnTimes(w, shardStart, Start(w, g[0].trMin), SlipsTo(w, chunkSize, shardStart, g),
                                       Start(w, trMin))
    ensures Start(w, trMin) == LastOr(Dues(w, g), Start(w, g[0].trMin) - w.interval)
    ensures sent == [] <==> Dues(w, g) == []
  {
    hide Start, Times, ValueStarts, Dues, MovesFirst, Lead;
    var first := Start(w, g[0].trMin);
    NoTimes(w);
    StartShift(w, first);
    if sent == [] {
      DenseHead(w, first, first - w.interval);
    } else if Moved(w, trMin) {
      FirstTwo(w, first, first);
      DenseHead(w, first + w.interval, first);
    }
  }

  lemma SomethingSent(w: Windowing, sent: seq<Row>, before: seq<int>, newRecord: seq<int>)
    requires newRecord != [] && ValueStarts(w, sent) == before + StartsOf(w, newRecord)
    ensures sent != []
  {
  }

  /** The windows due are in order. */
  lemma {:induction false} DuesRise(w: Windowing, shardStart: int, g: seq<SeriesRecord>, reached: int)
    requires g != [] && ValidGroup(w, shardStart, g) && After(w, reached, g)
    ensures Extends(Dues(w, g), reached, Start(w, g[0].trMax))
    decreases |g|
  {
    hide Start, Kick, Due, Extends, ValidGroup, After;
    var due := Due(w, Kick(g[0].rows), GoesOnAfter(w, g, 0));
    AbsorbFacts(w, shardStart, g, reached);
    if Kick(g[0].rows) == [] {
      DueNothing(w, g[0].rows);
      NothingExtends(reached, Start(w, g[0].trMax));
    }
    if |g| == 1 {
      assert g[1..] == [];
      assert due + Dues(w, g[1..]) == due;
    } else {
      GroupTail(w, shardStart, g);
      SameTrMax(w, shardStart, g);
      DuesRise(w, shardStart, g[1..], LastOr(due, reached));
      ExtendsConcat(due, Dues(w, g[1..]), reached, Start(w, g[0].trMax));
    }
  }

  lemma NothingExtends(reached: int, lastWindow: int)
    ensures Extends([], reached, lastWindow)
  {
  }

  lemma SameTrMax(w: Windowing, shardStart: int, g: seq<SeriesRecord>)
    requires |g| > 1 && ValidGroup(w, shardStart, g)
    ensures g[1].trMax == g[0].trMax
  {
    assert SegmentOf(shardStart, g[1], g[0]);
  }

  lemma {:induction false} DuesAreStarts(w: Windowing, g: seq<SeriesRecord>)
    ensures forall k :: 0 <= k < |Dues(w, g)| ==> Dues(w, g)[k] == Start(w, Dues(w, g)[k])
  {
    hide Start, Kick, WindowsOf;
    if g != [] {
      DuesAreStarts(w, g[1..]);
      var kicked := Kick(g[0].rows);
      WindowsIn(w, kicked);
      forall s | s in WindowsOf(w, kicked) ensures s == Start(w, s) {
        var k :| 0 <= k < |kicked| && Start(w, kicked[k]) == s;
        StartShift(w, kicked[k]);
      }
    }
  }

  lemma {:induction false} FirstDueLeads(w: Windowing, g: seq<SeriesRecord>)
    ensures FirstDue(w, g) <= Dues(w, g)
  {
    hide Due, GoesOnAfter, Kick;
    if g != [] {
      FirstDueLeads(w, g[1..]);
    }
  }

  lemma EndFacts(w: Windowing, chunkSize: nat, shardStart: int, g: seq<SeriesRecord>)
    requires g != [] && ValidGroup(w, shardStart, g)
    ensures var till := EndsAt(w, chunkSize, g);
            Start(w, g[0].trMin) - w.interval <= till == Start(w, till) <= Start(w, g[0].trMax)
  {
    hide Start, Dues, ValidGroup, Held;
    var first := Start(w, g[0].trMin);
    AllAfter(w, shardStart, g);
    DuesRise(w, shardStart, g, first - w.interval);
    DuesAreStarts(w, g);
    StartShift(w, g[0].trMin);
    StartShift(w, g[0].trMax);
    StartShift(w, first);
    InRange(w, shardStart, g);
  }

  lemma InRange(w: Windowing, shardStart: int, g: seq<SeriesRecord>)
    requires g != [] && ValidGroup(w, shardStart, g)
    ensures Start(w, g[0].trMin) <= Start(w, g[0].trMax)
  {
    hide Start;
    assert SegmentOf(shardStart, g[0], g[0]);
    assert g[0].trMin <= g[0].rows[0].time <= g[0].trMax;
    StartsApart(w, g[0].trMin, g[0].trMax);
  }

  /** Where a field slips to, for every field. */
  lemma SlipFacts(w: Windowing, chunkSize: nat, shardStart: int, g: seq<SeriesRecord>)
    requires g != [] && ValidGroup(w, shardStart, g)
    ensures var first, to := Start(w, g[0].trMin), SlipsTo(w, chunkSize, shardStart, g);
            && (Slips(w, chunkSize, shardStart, g) <==> to != first + w.interval)
            && (Slips(w, chunkSize, shardStart, g) ==>
                  && first < shardStart < first + w.interval < to == Start(w, to) <= EndsAt(w, chunkSize, g))
  {
    hide Start, Dues, FirstDue, ValidGroup, Held;
    var first := Start(w, g[0].trMin);
    if MovesFirst(w, chunkSize, shardStart, g) && |Dues(w, g)| >= 2 {
      AllAfter(w, shardStart, g);
      DuesRise(w, shardStart, g, first - w.interval);
      DuesAreStarts(w, g);
      FirstDueLeads(w, g);
      StartShift(w, g[0].trMin);
      assert Dues(w, g)[0] == FirstDue(w, g)[0] == first;
      StartsApart(w, first, Dues(w, g)[1]);
    }
  }

  /** A column with a gap is not the windows from the first one up to any other. */
  lemma SlipTells(w: Windowing, shardStart: int, first: int, to: int, till: int, b: int)
    requires first == Start(w, first) < shardStart < first + w.interval < to == Start(w, to) <= till
    ensures ColumnTimes(w, shardStart, first, to, till) != Clamp(shardStart, Dense(w, first, b))
    ensures |ColumnTimes(w, shardStart, first, to, till)| == |Dense(w, first, till)| - 1
  {
    hide Start, Dense, Lead;
    StartUnique(w, shardStart, first, first);
    MovedStartLosesWindow(w, shardStart, to);
    DenseHead(w, to, till);
    DenseHead(w, first, b);
    if first <= b {
      FirstTwo(w, first, b);
      DenseHead(w, first + w.interval, b);
    }
    FirstTwo(w, first, till);
    StartsApart(w, first, to);
    assert to - (first + w.interval) == to - first - w.interval;
    DenseSplit(w, first + w.interval, to, till);
    var times, whole := ColumnTimes(w, shardStart, first, to, till), Clamp(shardStart, Dense(w, first, b));
    assert times[1] == if Lead(w, shardStart, to) == [] then to else shardStart + w.interval;
    assert |whole| > 1 ==> whole[1] == first + w.interval;
  }

  lemma ClampLength(c: int, a: seq<int>)
    ensures |Clamp(c, a)| == |a|
  {
  }

  lemma ColumnIsCovered(w: Windowing, shardStart: int, chunkSize: nat, g: seq<SeriesRecord>, sent: seq<Row>)
    requires g != [] && ValidGroup(w, shardStart, g)
    requires var till := EndsAt(w, chunkSize, g);
             Times(sent) == ColumnTimes(w, shardStart, Start(w, g[0].trMin), SlipsTo(w, chunkSize, shardStart, g), till)
    ensures var slips, till := Slips(w, chunkSize, shardStart, g), EndsAt(w, chunkSize, g);
            && (Times(sent) == CoveredTill(w, shardStart, g[0], till) <==> !slips)
            && (slips ==> |sent| == |CoveredTill(w, shardStart, g[0], till)| - 1)
            && (Times(sent) == Covered(w, shardStart, g[0]) <==> till == Start(w, g[0].trMax) && !slips)
  {
    hide Start, Times, Dense, Clamp, ColumnTimes, Slips, SlipsTo, EndsAt, ValidGroup;
    var first, last, till := Start(w, g[0].trMin), Start(w, g[0].trMax), EndsAt(w, chunkSize, g);
    StartShift(w, g[0].trMin);
    StartShift(w, g[0].trMax);
    SlipFacts(w, chunkSize, shardStart, g);
    EndFacts(w, chunkSize, shardStart, g);
    if Slips(w, chunkSize, shardStart, g) {
      var to := SlipsTo(w, chunkSize, shardStart, g);
      SlipTells(w, shardStart, first, to, till, till);
      SlipTells(w, shardStart, first, to, till, last);
      ClampLength(shardStart, Dense(w, first, till));
      TimesLength(sent);
    } else {
      ColumnUnbroken(w, shardStart, first, till);
      if till < last {
        NotCovered(w, shardStart, first, till, last);
      }
    }
  }

  lemma NothingYet(w: Windowing, chunkSize: nat, g: seq<SeriesRecord>)
    ensures Held(w, chunkSize, g, 0) == 0 && ValueStarts(w, []) == [] && StartsOf(w, []) == [] && Dues(w, []) == []
  {
  }

  lemma HeldNext(w: Windowing, chunkSize: nat, all: seq<SeriesRecord>, n: nat, i: nat)
    requires i < n <= |all|
    ensures var before := Held(w, chunkSize, all[..n], i);
            var due := Due(w, Kick(all[i].rows), GoesOnAfter(w, all[i..n], 0));
            && Held(w, chunkSize, all[..n], i + 1) == (if before >= chunkSize then 0 else before) + |due|
            && Dues(w, all[i..n]) == due + Dues(w, all[i + 1..n])
  {
    hide Start, Kick, Due;
    assert all[i..n][1..] == all[i + 1..n];
    assert all[..n][i] == all[i] == all[i..n][0];
    assert i + 1 < n ==> all[..n][i + 1] == all[i..n][1];
  }

  /** While a record of the field is left, its last window is not reached. */
  lemma BeforeLast(w: Windowing, trMin: int, newRecord: seq<int>, rec: SeriesRecord, g: seq<SeriesRecord>,
                   lastWindow: int, shardStart: int)
    requires g != [] && g[0] == rec && ValidGroup(w, shardStart, g) && lastWindow == Start(w, rec.trMax)
    requires InGroup(w, trMin, newRecord, g, lastWindow)
    ensures trMin < lastWindow
  {
    hide Start;
    StartsLength(w, newRecord);
    assert g[0].rows[0].time <= rec.trMax;
    StartsApart(w, rec.rows[0].time, rec.trMax);
    assert LastOr(StartsOf(w, newRecord), trMin) < Start(w, g[0].rows[0].time);
    assert newRecord != [] ==> trMin < StartsOf(w, newRecord)[|newRecord| - 1];
  }

  /** What stops before the last window is not the whole list. */
  lemma NotCovered(w: Windowing, shardStart: int, first: int, till: int, lastWindow: int)
    requires first == Start(w, first)
          && first - w.interval <= till == Start(w, till) < lastWindow == Start(w, lastWindow)
    ensures Clamp(shardStart, Dense(w, first, till)) != Clamp(shardStart, Dense(w, first, lastWindow))
  {
    hide Start, Dense, Clamp;
    StartsApart(w, till, lastWindow);
    StartShift(w, first);
    DenseOn(w, first - w.interval, till, lastWindow);
    DenseHead(w, till + w.interval, lastWindow);
    assert first - w.interval + w.interval == first;
    ClampLength(shardStart, Dense(w, first, till));
    ClampLength(shardStart, Dense(w, first, lastWindow));
  }

  /** A value in the last segment of a field is enough. */
  lemma LastValueIsHeld(w: Windowing, chunkSize: nat, g: seq<SeriesRecord>)
    requires g != [] && Kick(g[|g| - 1].rows) != []
    ensures Held(w, chunkSize, g, |g|) > 0
  {
    hide Start, Kick;
    WindowsEnd(w, Kick(g[|g| - 1].rows));
  }

  /** The last window of a segment is held back for the next one, which has no value in it. */
  predicate HeldInVain(w: Windowing, g: seq<SeriesRecord>, k: nat)
    requires k < |g|
  {
    var kicked, rest := Kick(g[k].rows), Values(g[k + 1..]);
    GoesOnAfter(w, g, k) && (rest == [] || Start(w, rest[0]) != Start(w, kicked[|kicked| - 1]))
  }

  /** The windows sent with a value are those with a value, each once and in order,
      exactly if no window is held back in vain. */
  lemma {:induction false} DuesAreWindows(w: Windowing, shardStart: int, g: seq<SeriesRecord>)
    requires ValidGroup(w, shardStart, g)
    ensures |Dues(w, g)| <= |WindowsOf(w, Values(g))|
    ensures Dues(w, g) == WindowsOf(w, Values(g)) <==> forall k :: 0 <= k < |g| ==> !HeldInVain(w, g, k)
    ensures |Dues(w, g)| == |WindowsOf(w, Values(g))| <==> forall k :: 0 <= k < |g| ==> !HeldInVain(w, g, k)
  {
    if g != [] {
      hide Start, WindowsOf, Kick, ValidGroup, Values, Dues;
      GroupTail(w, shardStart, g);
      DuesAreWindows(w, shardStart, g[1..]);
      OneMore(w, shardStart, g);
      VainSplit(w, g);
    }
  }

  lemma GroupTail(w: Windowing, shardStart: int, g: seq<SeriesRecord>)
    requires g != [] && ValidGroup(w, shardStart, g)
    ensures ValidGroup(w, shardStart, g[1..])
  {
    if |g| > 1 {
      PartOfGroup(w, shardStart, g, 1);
    }
  }

  lemma VainSplit(w: Windowing, g: seq<SeriesRecord>)
    requires g != []
    ensures (forall k :: 0 <= k < |g| ==> !HeldInVain(w, g, k))
       <==> !HeldInVain(w, g, 0) && forall k :: 0 <= k < |g[1..]| ==> !HeldInVain(w, g[1..], k)
  {
    hide Start, Kick, Values;
    var r := g[1..];
    forall k | 0 <= k < |r| ensures HeldInVain(w, r, k) == HeldInVain(w, g, k + 1) {
      assert r[k] == g[k + 1] && r[k + 1..] == g[k + 2..];
      assert k + 1 < |r| ==> r[k + 1] == g[k + 2];
    }
    forall k | 1 <= k < |g| ensures HeldInVain(w, r, k - 1) == HeldInVain(w, g, k) {
    }
  }

  /** One segment: the window held back is lost unless the values of the rest start in it. */
  lemma OneMore(w: Windowing, shardStart: int, g: seq<SeriesRecord>)
    requires g != [] && ValidGroup(w, shardStart, g)
    ensures var d, all, rest := Dues(w, g), WindowsOf(w, Values(g)), WindowsOf(w, Values(g[1..]));
            var due := Due(w, Kick(g[0].rows), GoesOnAfter(w, g, 0));
            && d == due + Dues(w, g[1..])
            && (!HeldInVain(w, g, 0) ==> all == due + rest)
            && (HeldInVain(w, g, 0) ==> |all| == |due| + 1 + |rest|)
  {
    hide Start, WindowsOf, Kick, ValidGroup;
    var kicked, later := Kick(g[0].rows), Values(g[1..]);
    if kicked == [] {
      DueNothing(w, g[0].rows);
      assert kicked + later == later;
    } else {
      WindowsEnd(w, kicked);
      if later == [] {
        assert kicked + later == kicked;
        NoWindows(w);
      } else {
        WindowsConcat(w, kicked, later);
        NextValue(w, shardStart, g);
      }
    }
  }

  /** A window that the next segment does not reach into has no later value. */
  lemma NextValue(w: Windowing, shardStart: int, g: seq<SeriesRecord>)
    requires g != [] && ValidGroup(w, shardStart, g) && Kick(g[0].rows) != [] && Values(g[1..]) != []
    ensures var kicked := Kick(g[0].rows);
            Start(w, Values(g[1..])[0]) == Start(w, kicked[|kicked| - 1]) ==> GoesOnAfter(w, g, 0)
  {
    hide Start, Kick, Values;
    var kicked, v := Kick(g[0].rows), Values(g[1..])[0];
    var last := kicked[|kicked| - 1];
    NoValues();
    assert g[1..] != [];
    GroupTail(w, shardStart, g);
    var k, i := FirstValue(w, shardStart, g[1..]);
    KickMeaning(g[0].rows);
    var m :| 0 <= m < |g[0].rows| && g[0].rows[m].time == last;
    var next := g[1].rows[0].time;
    assert g[1..][k] == g[k + 1];
    assert last < next <= v;
    StartsApart(w, last, next);
    StartsApart(w, next, v);
  }

  lemma NoValues()
    ensures Values([]) == []
  {
  }

  lemma {:induction false} FirstValue(w: Windowing, shardStart: int, g: seq<SeriesRecord>) returns (k: nat, i: nat)
    requires ValidGroup(w, shardStart, g) && Values(g) != []
    ensures k < |g| && i < |g[k].rows| && g[k].rows[i].time == Values(g)[0]
  {
    hide Kick, ValidGroup;
    if Kick(g[0].rows) != [] {
      k := 0;
      i := FirstKicked(g[0].rows);
    } else {
      GroupTail(w, shardStart, g);
      k, i := FirstValue(w, shardStart, g[1..]);
      k := k + 1;
    }
  }

  lemma {:induction false} FirstKicked(rows: seq<RawRow>) returns (i: nat)
    requires Kick(rows) != []
    ensures i < |rows| && rows[i].time == Kick(rows)[0]
  {
    if Kick(rows[..|rows| - 1]) != [] {
      i := FirstKicked(rows[..|rows| - 1]);
    } else {
      i := |rows| - 1;
    }
  }
}

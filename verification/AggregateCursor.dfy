/**
  The aggregate cursor: a series arrives in records, and each time window gives
  one output row, wherever the series is cut into records and wherever the
  output is cut into chunks.
 */
module AggregateCursor {
  import opened Options
  import opened DownSampleWindows

  /** The windows with data, in order, each once. */
  function WindowsOf(w: Windowing, times: seq<int>): seq<int> {
    var n := |times|;
    if n == 0 then []
    else if n > 1 && Start(w, times[n - 1]) == Start(w, times[n - 2]) then WindowsOf(w, times[..n - 1])
    else WindowsOf(w, times[..n - 1]) + [Start(w, times[n - 1])]
  }

  ghost predicate Ordered(times: seq<int>) {
    forall i, j :: 0 <= i < j < |times| ==> times[i] <= times[j]
  }

  lemma {:induction false} WindowsEnd(w: Windowing, times: seq<int>)
    requires times != []
    ensures WindowsOf(w, times) != []
    ensures WindowsOf(w, times)[|WindowsOf(w, times)| - 1] == Start(w, times[|times| - 1])
  {
    var n := |times|;
    if n > 1 && Start(w, times[n - 1]) == Start(w, times[n - 2]) {
      WindowsEnd(w, times[..n - 1]);
    }
  }

  lemma {:induction false} WindowsIn(w: Windowing, times: seq<int>)
    ensures forall k :: 0 <= k < |times| ==> Start(w, times[k]) in WindowsOf(w, times)
    ensures forall s :: s in WindowsOf(w, times) ==> exists k :: 0 <= k < |times| && Start(w, times[k]) == s
  {
    hide Start;
    var n := |times|;
    if n > 0 {
      var init := times[..n - 1];
      WindowsIn(w, init);
      WindowsEnd(w, times);
      assert WindowsOf(w, times)[|WindowsOf(w, times)| - 1] in WindowsOf(w, times);
      forall s | s in WindowsOf(w, times) ensures exists k :: 0 <= k < |times| && Start(w, times[k]) == s {
        if s in WindowsOf(w, init) {
          var k :| 0 <= k < |init| && Start(w, init[k]) == s;
          assert Start(w, times[k]) == s;
        } else {
          assert Start(w, times[n - 1]) == s;
        }
      }
    }
  }

  lemma {:induction false} WindowsRise(w: Windowing, times: seq<int>)
    requires Ordered(times)
    ensures forall i, j :: 0 <= i < j < |WindowsOf(w, times)| ==> WindowsOf(w, times)[i] < WindowsOf(w, times)[j]
  {
    hide Start;
    var n := |times|;
    if n > 1 {
      var init := times[..n - 1];
      WindowsRise(w, init);
      WindowsEnd(w, init);
      StartsApart(w, times[n - 2], times[n - 1]);
    }
  }

  /** Each window once and in order: the list is strictly rising and holds exactly
      the windows of the rows. */
  lemma WindowsMeaning(w: Windowing, times: seq<int>)
    requires Ordered(times)
    ensures forall i, j :: 0 <= i < j < |WindowsOf(w, times)| ==> WindowsOf(w, times)[i] < WindowsOf(w, times)[j]
    ensures forall k :: 0 <= k < |times| ==> Start(w, times[k]) in WindowsOf(w, times)
    ensures forall s :: s in WindowsOf(w, times) ==> exists k :: 0 <= k < |times| && Start(w, times[k]) == s
  {
    WindowsIn(w, times);
    WindowsRise(w, times);
  }

  /** Two adjacent pieces share at most the window where they meet. */
  lemma {:induction false} WindowsConcat(w: Windowing, a: seq<int>, b: seq<int>)
    requires a != [] && b != []
    ensures WindowsOf(w, a + b)
         == (if Start(w, a[|a| - 1]) == Start(w, b[0]) then Front(WindowsOf(w, a)) else WindowsOf(w, a))
            + WindowsOf(w, b)
    decreases |b|
  {
    hide Start;
    WindowsEnd(w, a);
    var n := |a + b|;
    assert (a + b)[..n - 1] == a + b[..|b| - 1];
    if |b| == 1 {
      assert b[..0] == [] && a + [] == a;
      assert WindowsOf(w, b) == [Start(w, b[0])];
    } else {
      WindowsConcat(w, a, b[..|b| - 1]);
      assert (a + b)[n - 2] == b[|b| - 2];
    }
  }

  function Front(s: seq<int>): seq<int> {
    if s == [] then [] else s[..|s| - 1]
  }

  /** The row at `k` is the first one of its window in the record. */
  ghost predicate BeginsAt(w: Windowing, rec: seq<int>, k: int) {
    0 <= k < |rec| && (k == 0 || Start(w, rec[k - 1]) != Start(w, rec[k]))
  }

  ghost predicate Begins(w: Windowing, rec: seq<int>, t: int) {
    exists k :: BeginsAt(w, rec, k) && rec[k] == t
  }

  ghost predicate BeginsIn(w: Windowing, recs: seq<seq<int>>, t: int) {
    exists r :: r in recs && Begins(w, r, t)
  }

  /** Every row is the first one of its window in one of the records. */
  ghost predicate FirstRows(w: Windowing, recs: seq<seq<int>>, rows: seq<int>) {
    forall i :: 0 <= i < |rows| ==> BeginsIn(w, recs, rows[i])
  }

  lemma FirstRowsMore(w: Windowing, recs: seq<seq<int>>, rows: seq<int>, added: seq<int>, r: seq<int>)
    requires FirstRows(w, recs, rows) && r in recs && forall i :: 0 <= i < |added| ==> Begins(w, r, added[i])
    ensures FirstRows(w, recs, rows + added)
  {
    hide Begins;
    forall i | 0 <= i < |added| ensures BeginsIn(w, recs, added[i]) {
    }
  }

  lemma FirstRowsJoin(w: Windowing, recs: seq<seq<int>>, part: seq<seq<int>>, rows: seq<int>, added: seq<int>)
    requires FirstRows(w, recs, rows) && FirstRows(w, part, added) && forall r :: r in part ==> r in recs
    ensures FirstRows(w, recs, rows + added)
  {
    hide Begins;
    forall i | 0 <= i < |added| ensures BeginsIn(w, recs, added[i]) {
      assert BeginsIn(w, part, added[i]);
    }
  }

  /** The positions at which a new window begins. */
  method GetIntervalIndex(w: Windowing, times: seq<int>) returns (index: seq<nat>)
    requires |times| <= 65535
    ensures forall i :: 0 <= i < |index| ==> index[i] < |times|
    ensures |index| == |WindowsOf(w, times)|
    ensures forall i :: 0 <= i < |index| ==> Start(w, times[index[i]]) == WindowsOf(w, times)[i]
    ensures forall i :: 0 <= i < |index| ==> BeginsAt(w, times, index[i])
  {
    hide Start;
    index := [];
    var startTime, endTime := 0, 0;
    for i := 0 to |times|
      invariant i > 0 ==> startTime == Start(w, times[i - 1]) && endTime == startTime + w.interval
      invariant forall k :: 0 <= k < |index| ==> index[k] < |times|
      invariant |index| == |WindowsOf(w, times[..i])|
      invariant forall k :: 0 <= k < |index| ==> Start(w, times[index[k]]) == WindowsOf(w, times[..i])[k]
      invariant forall k :: 0 <= k < |index| ==> BeginsAt(w, times, index[k])
    {
      var t := times[i];
      assert times[..i + 1][..i] == times[..i];
      if i > 0 {
        StartsApart(w, times[i - 1], t);
        StartsApart(w, t, times[i - 1]);
      }
      if i == 0 || t >= endTime || t < startTime {
        index := index + [i % 0x1_0000];
        startTime := Start(w, t);
        endTime := startTime + w.interval;
      }
    }
    assert times[..|times|] == times;
  }

  function Flat(recs: seq<seq<int>>): seq<int> {
    if recs == [] then [] else recs[0] + Flat(recs[1..])
  }

  /** Records of one series in time order. */
  ghost predicate ValidRecords(recs: seq<seq<int>>) {
    (forall k :: 0 <= k < |recs| ==> |recs[k]| <= 65535) && Ordered(Flat(recs))
  }

  lemma RestValid(recs: seq<seq<int>>)
    requires recs != [] && ValidRecords(recs)
    ensures ValidRecords(recs[1..]) && Ordered(recs[0])
  {
    var all, head, rest := Flat(recs), recs[0], Flat(recs[1..]);
    assert forall i :: 0 <= i < |rest| ==> rest[i] == all[|head| + i];
    assert forall i :: 0 <= i < |head| ==> head[i] == all[i];
  }

  /** The last window of the first record is held back for the second: it begins in
      the window, or it is empty. */
  predicate GoesOn(w: Windowing, recs: seq<seq<int>>) {
    |recs| > 1 && recs[0] != [] && (recs[1] == [] || Start(w, recs[0][|recs[0]| - 1]) == Start(w, recs[1][0]))
  }

  /** The windows the first record adds, and all records. */
  function Share(w: Windowing, recs: seq<seq<int>>): seq<int>
    requires recs != []
  {
    if GoesOn(w, recs) then Front(WindowsOf(w, recs[0])) else WindowsOf(w, recs[0])
  }

  function Shares(w: Windowing, recs: seq<seq<int>>): seq<int> {
    if recs == [] then [] else Share(w, recs) + Shares(w, recs[1..])
  }

  /** A window is held back for an empty record, and what comes after that record does not
      begin in the window. */
  predicate HeldForNothing(w: Windowing, recs: seq<seq<int>>, k: nat)
    requires k < |recs|
  {
    && recs[k] != [] && k + 1 < |recs| && recs[k + 1] == []
    && var rest := Flat(recs[k + 1..]);
       rest == [] || Start(w, rest[0]) != Start(w, recs[k][|recs[k]| - 1])
  }

  /** One record: the window held back is lost unless the rest begins in it. */
  lemma RecordTiles(w: Windowing, recs: seq<seq<int>>)
    requires recs != []
    ensures var all, rest := WindowsOf(w, Flat(recs)), WindowsOf(w, Flat(recs[1..]));
            && (!HeldForNothing(w, recs, 0) ==> all == Share(w, recs) + rest)
            && (HeldForNothing(w, recs, 0) ==> |all| == |Share(w, recs)| + 1 + |rest|)
  {
    hide Start, WindowsOf;
    var head, rest := recs[0], Flat(recs[1..]);
    NoWindows(w);
    if head == [] {
      assert Flat(recs) == rest;
    } else if rest == [] {
      assert Flat(recs) == head;
      WindowsEnd(w, head);
      assert |recs| > 1 ==> recs[1] == [];
    } else {
      WindowsConcat(w, head, rest);
      WindowsEnd(w, head);
      assert rest == recs[1] + Flat(recs[1..][1..]);
    }
  }

  lemma HeldSplit(w: Windowing, recs: seq<seq<int>>)
    requires recs != []
    ensures (forall k :: 0 <= k < |recs| ==> !HeldForNothing(w, recs, k))
       <==> !HeldForNothing(w, recs, 0) && forall k :: 0 <= k < |recs[1..]| ==> !HeldForNothing(w, recs[1..], k)
  {
    hide Start, Flat;
    var r := recs[1..];
    forall k | 0 <= k < |r| ensures HeldForNothing(w, r, k) == HeldForNothing(w, recs, k + 1) {
      assert r[k] == recs[k + 1] && r[k + 1..] == recs[k + 2..];
      assert k + 1 < |r| ==> r[k + 1] == recs[k + 2];
    }
    forall k | 1 <= k < |recs| ensures HeldForNothing(w, r, k - 1) == HeldForNothing(w, recs, k) {
    }
  }

  /** The records add each window with data once and in order exactly if none is held
      back for nothing, and otherwise too few. */
  lemma {:induction false} SharesAreWindows(w: Windowing, recs: seq<seq<int>>)
    ensures |Shares(w, recs)| <= |WindowsOf(w, Flat(recs))|
    ensures Shares(w, recs) == WindowsOf(w, Flat(recs)) <==> forall k :: 0 <= k < |recs| ==> !HeldForNothing(w, recs, k)
    ensures |Shares(w, recs)| == |WindowsOf(w, Flat(recs))|
       <==> forall k :: 0 <= k < |recs| ==> !HeldForNothing(w, recs, k)
  {
    hide Start, WindowsOf, Flat, HeldForNothing, Share;
    if recs == [] {
      NoRows();
      NoWindows(w);
    } else {
      SharesAreWindows(w, recs[1..]);
      RecordTiles(w, recs);
      HeldSplit(w, recs);
    }
  }

  lemma NoRows()
    ensures Flat([]) == []
  {
  }

  /** The window at 0 is lost, because an empty record follows it. */
  lemma EmptyRecordLosesWindow(w: Windowing, recs: seq<seq<int>>)
    requires w == Windowing(10, 0) && recs == [[0], [], [20]]
    ensures ValidRecords(recs) && HeldForNothing(w, recs, 0)
  {
    assert recs[1..][1..] == [[20]] && recs[1..][1..][1..] == [];
    assert Flat(recs[1..][1..]) == [20];
    assert Flat(recs[1..]) == [20] && Flat(recs) == [0, 20];
  }

  lemma NoWindows(w: Windowing)
    ensures WindowsOf(w, []) == []
  {
  }

  /** The records left after the first one. */
  lemma AfterFirst(w: Windowing, recs: seq<seq<int>>, rec: seq<int>, rest: seq<seq<int>>)
    requires recs == [rec] + rest && ValidRecords(recs)
    ensures |recs| == |rest| + 1 && ValidRecords(rest) && |rec| <= 65535
    ensures Shares(w, recs)
         == (if GoesOn(w, recs) then Front(WindowsOf(w, rec)) else WindowsOf(w, rec)) + Shares(w, rest)
    ensures rec == [] ==> Shares(w, recs) == Shares(w, rest)
  {
    assert recs[1..] == rest && recs[0] == rec;
    RestValid(recs);
    NoWindows(w);
  }

  lemma NoFirstRows(w: Windowing, recs: seq<seq<int>>)
    ensures FirstRows(w, recs, [])
  {
  }

  lemma NoShares(w: Windowing)
    ensures Shares(w, []) == [] && StartsOf(w, []) == []
  {
  }

  lemma StartsEmpty(w: Windowing, times: seq<int>)
    ensures StartsOf(w, times) == [] <==> times == []
  {
  }

  /** One row per window of the record, except a window that goes on; the time of
      the first row of the window stands for it. */
  method Reduce(w: Windowing, rec: seq<int>, inNextWin: bool, newRecord0: seq<int>) returns (newRecord: seq<int>)
    requires 0 < |rec| <= 65535
    ensures StartsOf(w, newRecord)
         == StartsOf(w, newRecord0) + (if inNextWin then Front(WindowsOf(w, rec)) else WindowsOf(w, rec))
    ensures newRecord0 <= newRecord
    ensures forall i :: |newRecord0| <= i < |newRecord| ==> Begins(w, rec, newRecord[i])
  {
    hide Start, WindowsOf;
    var index := GetIntervalIndex(w, rec);
    var addRecordLen := if inNextWin then |index| - 1 else |index|;
    newRecord := newRecord0;
    ghost var due := if inNextWin then Front(WindowsOf(w, rec)) else WindowsOf(w, rec);
    WindowsEnd(w, rec);
    for i := 0 to addRecordLen
      invariant StartsOf(w, newRecord) == StartsOf(w, newRecord0) + due[..i]
      invariant newRecord0 <= newRecord
      invariant forall k :: |newRecord0| <= k < |newRecord| ==> Begins(w, rec, newRecord[k])
    {
      ghost var before := newRecord;
      newRecord := newRecord + [rec[index[i]]];
      assert StartsOf(w, newRecord) == StartsOf(w, before) + [Start(w, rec[index[i]])];
    }
  }

  class Cursor {
    const w: Windowing
    const maxRecordSize: nat
    var input: seq<seq<int>>
    var bufRecord: Option<seq<int>>
    var inNextWin: bool

    constructor (w: Windowing, maxRecordSize: nat, input: seq<seq<int>>)
      ensures this.w == w && this.maxRecordSize == maxRecordSize && Pending() == input && bufRecord.None?
    {
      this.w := w;
      this.maxRecordSize := maxRecordSize;
      this.input := input;
      bufRecord := None;
      inNextWin := false;
    }

    /** The records not yet consumed: the pushed-back one first. */
    ghost function Pending(): seq<seq<int>>
      reads this
    {
      (if bufRecord.Some? then [bufRecord.value] else []) + input
    }

    method NextRecord() returns (r: Option<seq<int>>)
      modifies this`input, this`bufRecord
      ensures r.None? ==> old(Pending()) == [] && Pending() == []
      ensures r.Some? ==> old(Pending()) == [r.value] + Pending()
      ensures bufRecord.None?
    {
      if bufRecord.Some? {
        r := bufRecord;
        bufRecord := None;
      } else if input == [] {
        r := None;
      } else {
        r := Some(input[0]);
        input := input[1..];
      }
    }

    method UnreadRecord(r: Option<seq<int>>)
      requires bufRecord.None?
      modifies this`bufRecord
      ensures Pending() == (if r.Some? then [r.value] else []) + old(Pending())
    {
      bufRecord := r;
    }

    /** Whether the last window of a record goes on in the next record. */
    method InNextWindow(curr: seq<int>)
      requires bufRecord.None?
      modifies this
      ensures Pending() == old(Pending())
      ensures inNextWin <==> GoesOn(w, [curr] + Pending())
    {
      hide Start;
      var next := NextRecord();
      UnreadRecord(next);
      if next.None? || curr == [] {
        inNextWin := false;
        return;
      }
      assert next.value == old(Pending())[0];
      if next.value == [] {
        inNextWin := true;
        return;
      }
      var lastTime := curr[|curr| - 1];
      var startTime := Start(w, next.value[0]);
      StartsApart(w, next.value[0], lastTime);
      StartsApart(w, lastTime, next.value[0]);
      inNextWin := startTime <= lastTime < startTime + w.interval;
    }

    /** The next chunk of output rows; their windows followed by those the records left
        add are the windows the records there were add. */
    method Next() returns (chunk: Option<seq<int>>)
      requires ValidRecords(Pending()) && maxRecordSize > 0
      modifies this
      ensures ValidRecords(Pending())
      ensures chunk.None? ==> Shares(w, old(Pending())) == [] && Pending() == []
      ensures chunk.Some? ==> chunk.value != [] && |Pending()| < |old(Pending())|
      ensures chunk.Some? ==> StartsOf(w, chunk.value) + Shares(w, Pending()) == Shares(w, old(Pending()))
      ensures chunk.Some? ==> FirstRows(w, old(Pending()), chunk.value)
      ensures forall r :: r in Pending() ==> r in old(Pending())
    {
      hide Start, WindowsOf, Shares, ValidRecords, GoesOn, StartsOf, Front, FirstRows, Begins, BeginsIn;
      var newRecord := [];
      NoShares(w);
      NoFirstRows(w, Pending());
      while true
        invariant ValidRecords(Pending())
        invariant |Pending()| <= |old(Pending())| && (newRecord != [] ==> |Pending()| < |old(Pending())|)
        invariant StartsOf(w, newRecord) + Shares(w, Pending()) == Shares(w, old(Pending()))
        invariant FirstRows(w, old(Pending()), newRecord) && forall r :: r in Pending() ==> r in old(Pending())
        decreases |Pending()|
      {
        ghost var before := Pending();
        var rec := NextRecord();
        if rec.None? {
          StartsEmpty(w, newRecord);
          return if newRecord != [] then Some(newRecord) else None;
        }
        AfterFirst(w, before, rec.value, Pending());
        if rec.value == [] {
          continue;
        }
        if |newRecord| >= maxRecordSize {
          UnreadRecord(rec);
          assert Pending() == before;
          return Some(newRecord);
        }
        InNextWindow(rec.value);
        ghost var rows := newRecord;
        newRecord := Reduce(w, rec.value, inNextWin, newRecord);
        FirstRowsMore(w, old(Pending()), rows, newRecord[|rows|..], rec.value);
        assert newRecord == rows + newRecord[|rows|..];
        inNextWin := false;
      }
    }

    /** All chunks together. */
    method Drain() returns (rows: seq<int>)
      requires ValidRecords(Pending()) && maxRecordSize > 0
      modifies this
      ensures Pending() == []
      ensures StartsOf(w, rows) == Shares(w, old(Pending()))
      ensures FirstRows(w, old(Pending()), rows)
    {
      hide Start, WindowsOf, FirstRows, Begins;
      rows := [];
      NoFirstRows(w, Pending());
      while true
        invariant ValidRecords(Pending())
        invariant StartsOf(w, rows) + Shares(w, Pending()) == Shares(w, old(Pending()))
        invariant FirstRows(w, old(Pending()), rows) && forall r :: r in Pending() ==> r in old(Pending())
        decreases |Pending()|
      {
        ghost var before := Pending();
        var chunk := Next();
        if chunk.None? {
          return;
        }
        FirstRowsJoin(w, old(Pending()), before, rows, chunk.value);
        assert StartsOf(w, rows + chunk.value) == StartsOf(w, rows) + StartsOf(w, chunk.value);
        rows := rows + chunk.value;
      }
    }
  }

  /** For every cut of a series into records and every chunk size, the output rows lie
      one in each window of the series, in order, exactly if no window is held back for
      an empty record in vain; otherwise there are too few rows. */
  method AggregateWindows(w: Windowing, recs: seq<seq<int>>, maxRecordSize: nat) returns (rows: seq<int>)
    requires ValidRecords(recs) && maxRecordSize > 0
    ensures StartsOf(w, rows) == WindowsOf(w, Flat(recs))
       <==> forall k :: 0 <= k < |recs| ==> !HeldForNothing(w, recs, k)
    ensures StartsOf(w, rows) != WindowsOf(w, Flat(recs)) ==> |rows| < |WindowsOf(w, Flat(recs))|
    ensures FirstRows(w, recs, rows)
  {
    hide WindowsOf, Flat, Start, HeldForNothing, FirstRows;
    var c := new Cursor(w, maxRecordSize, recs);
    rows := c.Drain();
    SharesAreWindows(w, recs);
    assert |StartsOf(w, rows)| == |rows|;
  }
}

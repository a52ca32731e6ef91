/**
  Time windows of a down-sample task, and the padding that turns the windows
  with data into an unbroken list of windows.
 */
module DownSampleWindows {
  import opened Multiples

  /** A partition of time into windows of one length. */
  datatype WindowingRaw = Windowing(interval: int, offset: int)

  type Windowing = w: WindowingRaw | w.interval > 0 witness Windowing(1, 0)

  /** The start of the window of time `t`. */
  function Start(w: Windowing, t: int): int {
    t - (t - w.offset) % w.interval
  }

  /** Windows begin at the offset and every window length from it, and a time lies in the
      window that has begun last. */
  lemma StartMeaning(w: Windowing, t: int)
    ensures Start(w, t) <= t < Start(w, t) + w.interval
    ensures exists k :: Start(w, t) == w.offset + k * w.interval
  {
    var k := (t - w.offset) / w.interval;
    assert Start(w, t) == w.offset + k * w.interval;
  }

  /** A row of an output record: its time and whether it carries no value. */
  datatype Row = Row(time: int, isNil: bool)

  function Times(rows: seq<Row>): seq<int> {
    if rows == [] then [] else Times(rows[..|rows| - 1]) + [rows[|rows| - 1].time]
  }

  /** The window starts from `from` up to `till`, without a gap. */
  function Dense(w: Windowing, from: int, till: int): seq<int>
    decreases till - from
  {
    if from > till then [] else [from] + Dense(w, from + w.interval, till)
  }

  /** The windows of the rows with a value. */
  function ValueStarts(w: Windowing, rows: seq<Row>): seq<int> {
    if rows == [] then []
    else
      var n := |rows| - 1;
      ValueStarts(w, rows[..n]) + (if rows[n].isNil then [] else [Start(w, rows[n].time)])
  }

  /** The windows of a list of times. */
  function StartsOf(w: Windowing, times: seq<int>): seq<int> {
    seq(|times|, i requires 0 <= i < |times| => Start(w, times[i]))
  }

  lemma {:induction false} ValueStartsMeaning(w: Windowing, rows: seq<Row>, s: int)
    ensures s in ValueStarts(w, rows)
       <==> exists i :: 0 <= i < |rows| && !rows[i].isNil && Start(w, rows[i].time) == s
  {
    hide Start;
    if rows != [] {
      var n := |rows| - 1;
      ValueStartsMeaning(w, rows[..n], s);
      assert forall i :: 0 <= i < n ==> rows[..n][i] == rows[i];
    }
  }

  lemma ValueStartsSnoc(w: Windowing, rows: seq<Row>, r: Row)
    ensures ValueStarts(w, rows + [r]) == ValueStarts(w, rows) + (if r.isNil then [] else [Start(w, r.time)])
  {
    assert (rows + [r])[..|rows|] == rows;
  }

  lemma {:induction false} ValueStartsConcat(w: Windowing, a: seq<Row>, b: seq<Row>)
    ensures ValueStarts(w, a + b) == ValueStarts(w, a) + ValueStarts(w, b)
  {
    hide Start;
    if b == [] {
      assert a + b == a;
    } else {
      var n := |b| - 1;
      ValueStartsConcat(w, a, b[..n]);
      assert (a + b)[..|a| + n] == a + b[..n];
    }
  }

  /** Moving the first row inside its window keeps the windows with a value. */
  lemma ValueStartsHead(w: Windowing, rows: seq<Row>, t: int)
    requires rows != [] && Start(w, t) == Start(w, rows[0].time)
    ensures ValueStarts(w, [rows[0].(time := t)] + rows[1..]) == ValueStarts(w, rows)
  {
    hide Start;
    var r := rows[0].(time := t);
    ValueStartsConcat(w, [r], rows[1..]);
    ValueStartsConcat(w, [rows[0]], rows[1..]);
    assert [rows[0]] + rows[1..] == rows;
    assert [r][..0] == [] && [rows[0]][..0] == [];
  }

  /** Windows are half-open intervals of one length that do not overlap. */
  lemma StartsApart(w: Windowing, t: int, u: int)
    ensures Start(w, t) <= t < Start(w, t) + w.interval
    ensures Start(w, t) <= Start(w, u) ==> Aligned(Start(w, u) - Start(w, t), w.interval)
    ensures Start(w, t) < Start(w, u) ==> Start(w, t) + w.interval <= Start(w, u)
    ensures t <= u ==> Start(w, t) <= Start(w, u)
  {
    var i := w.interval;
    var a, b := (t - w.offset) / i, (u - w.offset) / i;
    assert Start(w, t) - w.offset == a * i && Start(w, u) - w.offset == b * i;
    assert Start(w, u) - Start(w, t) == (b - a) * i;
    if a <= b {
      AlignedMultiple(b - a, i);
    }
    if a < b {
      MulAtLeast(b - a, i);
    } else if b < a {
      MulAtLeast(a - b, i);
    }
  }

  /** Shifting a time by one window length shifts its window. */
  lemma StartShift(w: Windowing, t: int)
    ensures Start(w, t + w.interval) == Start(w, t) + w.interval
    ensures Start(w, t - w.interval) == Start(w, t) - w.interval
    ensures Start(w, Start(w, t)) == Start(w, t)
  {
    StartUnique(w, t + w.interval, Start(w, t) + w.interval, t);
    StartUnique(w, t - w.interval, Start(w, t) - w.interval, t);
    StartUnique(w, Start(w, t), Start(w, t), t);
  }

  lemma StartUnique(w: Windowing, t: int, s: int, u: int)
    requires s <= t < s + w.interval
    requires s == Start(w, u) || s == Start(w, u) + w.interval || s == Start(w, u) - w.interval
    ensures Start(w, t) == s
  {
    var i := w.interval;
    var a, b := (u - w.offset) / i, (t - w.offset) / i;
    assert Start(w, u) - w.offset == a * i && Start(w, t) - w.offset == b * i;
    var c := if s == Start(w, u) then a else if s == Start(w, u) + i then a + 1 else a - 1;
    assert s - w.offset == c * i;
    assert (b - c) * i == Start(w, t) - s;
    if b > c { MulAtLeast(b - c, i); } else if b < c { MulAtLeast(c - b, i); }
  }

  lemma {:induction false} DenseSplit(w: Windowing, a: int, b: int, c: int)
    requires a <= b <= c + w.interval && Aligned(b - a, w.interval)
    ensures Dense(w, a, c) == Dense(w, a, b - w.interval) + Dense(w, b, c)
    decreases b - a
  {
    if a < b {
      assert b - (a + w.interval) == b - a - w.interval;
      DenseSplit(w, a + w.interval, b, c);
    }
  }

  lemma DenseSnoc(w: Windowing, a: int, b: int)
    requires a <= b && Aligned(b - a, w.interval)
    ensures Dense(w, a, b) == Dense(w, a, b - w.interval) + [b]
  {
    DenseSplit(w, a, b, b);
    assert Dense(w, b, b) == [b] + Dense(w, b + w.interval, b);
  }

  lemma TimesSnoc(rows: seq<Row>, r: Row)
    ensures Times(rows + [r]) == Times(rows) + [r.time]
  {
    assert (rows + [r])[..|rows|] == rows;
  }

  lemma {:induction false} TimesConcat(a: seq<Row>, b: seq<Row>)
    ensures Times(a + b) == Times(a) + Times(b)
  {
    if b == [] {
      assert a + b == a;
    } else {
      assert (a + b)[..|a + b| - 1] == a + b[..|b| - 1];
      TimesConcat(a, b[..|b| - 1]);
    }
  }

  lemma {:induction false} TimesLength(rows: seq<Row>)
    ensures |Times(rows)| == |rows|
    ensures forall i :: 0 <= i < |rows| ==> Times(rows)[i] == rows[i].time
  {
    if rows != [] {
      TimesLength(rows[..|rows| - 1]);
    }
  }

  /** The windows of the rows are all different and in order. */
  ghost predicate Rising(w: Windowing, times: seq<int>) {
    forall i, j :: 0 <= i < j < |times| ==> Start(w, times[i]) < Start(w, times[j])
  }

  /** The window start `j` places after `from`. */
  ghost function Later(w: Windowing, from: int, j: nat): int {
    if j == 0 then from else Later(w, from, j - 1) + w.interval
  }

  lemma {:induction false} LaterIsProduct(w: Windowing, from: int, j: nat)
    ensures Later(w, from, j) == from + w.interval * j
  {
    if j > 0 {
      LaterIsProduct(w, from, j - 1);
      assert w.interval * j == w.interval * (j - 1) + w.interval;
    }
  }

  lemma {:induction false} LaterAligned(w: Windowing, from: int, j: nat)
    ensures Aligned(Later(w, from, j) - from, w.interval)
  {
    if j > 0 {
      LaterAligned(w, from, j - 1);
      assert Later(w, from, j) - from - w.interval == Later(w, from, j - 1) - from;
    }
  }

  /** The number of window lengths between two times. */
  method StepsBetween(w: Windowing, from: int, end: int) returns (step: nat)
    requires from <= end
    ensures step == StepCount(w, from, end)
  {
    step := (end - from) / w.interval;
  }

  function StepCount(w: Windowing, from: int, end: int): nat
    requires from <= end
  {
    (end - from) / w.interval
  }

  lemma StepsAligned(w: Windowing, from: int, end: int)
    requires from <= end && Aligned(end - from, w.interval)
    ensures end == Later(w, from, StepCount(w, from, end))
  {
    AlignedQuotient(end - from, w.interval);
    LaterIsProduct(w, from, StepCount(w, from, end));
  }

  method TimeAt(w: Windowing, from: int, j: nat) returns (t: int)
    ensures t == Later(w, from, j)
  {
    LaterIsProduct(w, from, j);
    t := from + w.interval * j;
  }

  /** The next `n` times after `from`, each one window length after the one before. */
  ghost function NilTimes(w: Windowing, from: int, n: nat): seq<int> {
    seq(n, k requires 0 <= k < n => Later(w, from, k + 1))
  }

  /** From the start of a window on these are the windows strictly before `end`. */
  lemma {:induction false} NilTimesDense(w: Windowing, from: int, n: nat)
    ensures NilTimes(w, from, n) == Dense(w, from + w.interval, Later(w, from, n))
  {
    hide Dense;
    if n == 0 {
      DenseEmpty(w, from + w.interval, from);
    } else {
      NilTimesDense(w, from, n - 1);
      LaterAligned(w, from + w.interval, n - 1);
      LaterShift(w, from, n - 1);
      DenseSnoc(w, from + w.interval, Later(w, from, n));
      assert NilTimes(w, from, n) == NilTimes(w, from, n - 1) + [Later(w, from, n)];
    }
  }

  function Predecessor(n: nat): nat {
    if n == 0 then 0 else n - 1
  }

  /** Nil rows between `from` and `end`: for the windows strictly between them if `from`
      is the start of a window like `end`. */
  method AppendNilRows(w: Windowing, rows0: seq<Row>, from: int, end: int) returns (rows: seq<Row>)
    requires from <= end
    ensures Times(rows) == Times(rows0) + NilTimes(w, from, Predecessor(StepCount(w, from, end)))
    ensures Aligned(end - from, w.interval) ==>
              Times(rows) == Times(rows0) + Dense(w, from + w.interval, end - w.interval)
    ensures |rows| >= |rows0| && rows[..|rows0|] == rows0
    ensures ValueStarts(w, rows) == ValueStarts(w, rows0)
  {
    hide Aligned, Times, Dense, ValueStarts, StepCount;
    rows := rows0;
    var step := StepsBetween(w, from, end);
    var j := 1;
    while j < step
      invariant j >= 1 && (j <= step || j == 1)
      invariant |rows| >= |rows0| && rows[..|rows0|] == rows0
      invariant ValueStarts(w, rows) == ValueStarts(w, rows0)
      invariant Times(rows) == Times(rows0) + NilTimes(w, from, j - 1)
    {
      var t := TimeAt(w, from, j);
      TimesSnoc(rows, Row(t, true));
      ValueStartsSnoc(w, rows, Row(t, true));
      assert NilTimes(w, from, j) == NilTimes(w, from, j - 1) + [t];
      rows := rows + [Row(t, true)];
      j := j + 1;
    }
    if Aligned(end - from, w.interval) {
      NilRowsFill(w, from, end);
    }
  }

  lemma NilRowsFill(w: Windowing, from: int, end: int)
    requires from <= end && Aligned(end - from, w.interval)
    ensures NilTimes(w, from, Predecessor(StepCount(w, from, end))) == Dense(w, from + w.interval, end - w.interval)
  {
    hide Aligned, Dense, StepCount;
    var step := StepCount(w, from, end);
    StepsAligned(w, from, end);
    if step == 0 {
      DenseEmpty(w, from + w.interval, end - w.interval);
    } else {
      NilTimesDense(w, from, step - 1);
    }
  }

  /** The times of the nil rows before window `end`. */
  ghost function Lead(w: Windowing, from: int, end: int): seq<int> {
    NilTimes(w, from, if from <= end then Predecessor(StepCount(w, from, end)) else 0)
  }

  lemma LeadFills(w: Windowing, s0: int, end: int, till: int)
    requires s0 == Start(w, s0) < end == Start(w, end) <= till
    ensures Lead(w, s0, end) + Dense(w, end, till) == Dense(w, s0 + w.interval, till)
  {
    hide Start, Dense;
    StartsApart(w, s0, end);
    NilRowsFill(w, s0, end);
    assert end - (s0 + w.interval) == end - s0 - w.interval;
    DenseSplit(w, s0 + w.interval, end, till);
  }

  /** From inside a window, as after a chunk of one row that was moved to the start of
      the shard, there is one nil row less than there are windows in between. */
  lemma MovedStartLosesWindow(w: Windowing, from: int, end: int)
    requires Start(w, from) < from && Start(w, from) + w.interval < end == Start(w, end)
    ensures |Lead(w, from, end)| == |Dense(w, Start(w, from) + w.interval, end - w.interval)| - 1
    ensures Lead(w, from, end) != [] ==> Lead(w, from, end)[0] == from + w.interval
  {
    hide Start, Dense, Aligned;
    var s := Start(w, from);
    StartsApart(w, from, end);
    StartShift(w, from);
    NilRowsFill(w, s, end);
    StepsInside(w, s, from, end);
    assert Later(w, from, 1) == Later(w, from, 0) + w.interval;
  }

  /** No nil row before the window after the one of `from`. */
  lemma NoLead(w: Windowing, from: int)
    ensures Lead(w, from, Start(w, from) + w.interval) == []
  {
    var end := Start(w, from) + w.interval;
    StartsApart(w, from, from);
    hide Start;
    AtMostOne(end - from, w.interval);
  }

  lemma AtMostOne(n: nat, i: int)
    requires n <= i && 0 < i
    ensures n / i <= 1
  {
    if n < i {
      QuotRem(n, i, 0, n);
    } else {
      QuotRem(n, i, 1, 0);
    }
  }

  lemma StepsInside(w: Windowing, s: int, from: int, end: int)
    requires s < from < s + w.interval < end && Aligned(end - s, w.interval)
    ensures StepCount(w, from, end) == StepCount(w, s, end) - 1 && StepCount(w, s, end) >= 2
  {
    hide Aligned;
    var i, n := w.interval, StepCount(w, s, end);
    AlignedQuotient(end - s, i);
    AtLeastTwo(n, i);
    assert i * n == i * (n - 1) + i;
    QuotRem(end - from, i, n - 1, i - (from - s));
  }

  lemma AtLeastTwo(n: nat, i: int)
    requires 0 < i < i * n
    ensures n >= 2
  {
  }

  lemma {:induction false} LaterShift(w: Windowing, from: int, j: nat)
    ensures Later(w, from + w.interval, j) == Later(w, from, j) + w.interval
    ensures Later(w, from, j) >= from
  {
    if j > 0 {
      LaterShift(w, from, j - 1);
    }
  }

  lemma DenseEmpty(w: Windowing, from: int, till: int)
    requires till < from
    ensures Dense(w, from, till) == []
  {
  }

  /** The first time is moved up to the start of the shard. */
  function Clamp(shardStart: int, ts: seq<int>): seq<int> {
    if ts != [] && ts[0] < shardStart then [shardStart] + ts[1..] else ts
  }

  /** The windows up to `a`, the gap after it, and the window `end`. */
  lemma DenseRow(w: Windowing, s0: int, a: int, end: int)
    requires s0 == Start(w, s0) <= a == Start(w, a) < end == Start(w, end)
    ensures Aligned(end - a, w.interval) && a + w.interval <= end
    ensures Dense(w, s0 + w.interval, a) + Dense(w, a + w.interval, end - w.interval) + [end]
         == Dense(w, s0 + w.interval, end)
  {
    hide Start, Dense;
    DenseOn(w, s0, a, end);
    StartsApart(w, a, end);
    assert end - (a + w.interval) == end - a - w.interval;
    DenseSnoc(w, a + w.interval, end);
  }

  lemma DenseOn(w: Windowing, s0: int, a: int, till: int)
    requires s0 == Start(w, s0) <= a == Start(w, a) <= till == Start(w, till)
    ensures Dense(w, s0 + w.interval, a) + Dense(w, a + w.interval, till) == Dense(w, s0 + w.interval, till)
  {
    hide Start, Dense;
    StartsApart(w, s0, a);
    assert a + w.interval - (s0 + w.interval) == a - s0;
    DenseSplit(w, s0 + w.interval, a + w.interval, till);
  }

  /** Fills the gaps between the windows of the rows `re`, starting after `seriesStart0`,
      and for the last chunk up to window `seriesEnd`. */
  method AppendRecWithNilRows(w: Windowing, re: seq<int>, seriesStart0: int, seriesEnd: int, shardStart: int,
                              last: bool)
    returns (rec: seq<Row>)
    requires re != [] && Rising(w, re) && seriesStart0 < Start(w, re[0])
    requires last ==> seriesEnd == Start(w, seriesEnd) > Start(w, re[|re| - 1])
    ensures |rec| >= |re|
    ensures var first, till := Start(w, re[0]), if last then seriesEnd - w.interval else Start(w, re[|re| - 1]);
            && Times(rec) == Clamp(shardStart, Lead(w, seriesStart0, first) + Dense(w, first, till))
            && (seriesStart0 == Start(w, seriesStart0) ==>
                  Times(rec) == Clamp(shardStart, Dense(w, seriesStart0 + w.interval, till)))
    ensures shardStart <= seriesStart0 || (seriesStart0 == Start(w, seriesStart0)
                                        && shardStart < seriesStart0 + w.interval + w.interval)
      ==> ValueStarts(w, rec) == StartsOf(w, re)
  {
    hide Aligned, Times, Dense, Start, ValueStarts, StartsOf, Lead;
    rec := AppendRows(w, re, seriesStart0);
    ghost var first, rEnd0 := Start(w, re[0]), Start(w, re[|re| - 1]);
    ghost var till := if last then seriesEnd - w.interval else rEnd0;
    TimesLength(rec);
    StartShift(w, re[0]);
    FirstToLast(w, re);
    if last {
      var rEnd := rec[|rec| - 1].time;
      StartsApart(w, rEnd, seriesEnd);
      StartShift(w, seriesEnd);
      StartShift(w, first);
      DenseOn(w, first - w.interval, rEnd, seriesEnd - w.interval);
      assert first - w.interval + w.interval == first;
      rec := AppendNilRows(w, rec, rEnd, seriesEnd);
      TimesLength(rec);
    }
    assert Times(rec) == Lead(w, seriesStart0, first) + Dense(w, first, till);
    if seriesStart0 == Start(w, seriesStart0) {
      LeadFills(w, seriesStart0, first, till);
    }
    AfterStart(w, seriesStart0, first, till, rec);
    if rec[0].time < shardStart {
      TimesHead(rec, shardStart);
      if seriesStart0 == Start(w, seriesStart0) && shardStart < seriesStart0 + w.interval + w.interval {
        FirstWindow(w, seriesStart0, rec, till, shardStart);
        ValueStartsHead(w, rec, shardStart);
      }
      rec := [rec[0].(time := shardStart)] + rec[1..];
    }
  }

  lemma FirstToLast(w: Windowing, re: seq<int>)
    requires re != [] && Rising(w, re)
    ensures Start(w, re[0]) <= Start(w, re[|re| - 1])
  {
    hide Start;
  }

  lemma AfterStart(w: Windowing, s0: int, first: int, till: int, rec: seq<Row>)
    requires rec != [] && s0 < first <= till && Times(rec) == Lead(w, s0, first) + Dense(w, first, till)
    ensures s0 < rec[0].time
  {
    hide StepCount;
    TimesLength(rec);
    assert Later(w, s0, 1) == Later(w, s0, 0) + w.interval;
  }

  lemma FirstWindow(w: Windowing, s0: int, rec: seq<Row>, till: int, shardStart: int)
    requires rec != [] && s0 == Start(w, s0) && Times(rec) == Dense(w, s0 + w.interval, till)
    requires rec[0].time < shardStart < s0 + w.interval + w.interval
    ensures Start(w, shardStart) == Start(w, rec[0].time)
  {
    hide Start;
    TimesLength(rec);
    StartShift(w, s0);
    StartUnique(w, shardStart, s0 + w.interval, s0);
  }

  lemma {:induction false} TimesHead(rows: seq<Row>, t: int)
    requires rows != []
    ensures Times([rows[0].(time := t)] + rows[1..]) == [t] + Times(rows)[1..]
  {
    TimesLength(rows);
    TimesLength([rows[0].(time := t)] + rows[1..]);
  }

  /** One row per window with data, and nil rows before and between them. */
  method AppendRows(w: Windowing, re: seq<int>, seriesStart0: int) returns (rec: seq<Row>)
    requires re != [] && Rising(w, re) && seriesStart0 < Start(w, re[0])
    ensures |rec| >= |re| && rec[|rec| - 1].time == Start(w, re[|re| - 1]) == Start(w, Start(w, re[|re| - 1]))
    ensures Times(rec) == Lead(w, seriesStart0, Start(w, re[0])) + Dense(w, Start(w, re[0]), Start(w, re[|re| - 1]))
    ensures ValueStarts(w, rec) == StartsOf(w, re)
  {
    hide Aligned, Times, Dense, Start, ValueStarts, StepCount, NilTimes;
    rec := [];
    var seriesStart := seriesStart0;
    ghost var first := Start(w, re[0]);
    ghost var lead := Lead(w, seriesStart0, first);
    NoTimes(w);
    StartShift(w, re[0]);
    StartShift(w, first);
    for i := 0 to |re|
      invariant i == 0 ==> seriesStart == seriesStart0 && rec == []
      invariant i > 0 ==> first <= seriesStart == Start(w, re[i - 1]) == Start(w, seriesStart)
      invariant |rec| >= i && (i > 0 ==> rec[|rec| - 1].time == seriesStart)
      invariant i > 0 ==> Times(rec) == lead + Dense(w, first, seriesStart)
      invariant ValueStarts(w, rec) == StartsOf(w, re)[..i]
    {
      var end := Start(w, re[i]);
      StartShift(w, re[i]);
      NextRow(w, first, seriesStart, end, i > 0);
      rec := AppendNilRows(w, rec, seriesStart, end);
      TimesSnoc(rec, Row(end, false));
      ValueStartsSnoc(w, rec, Row(end, false));
      rec := rec + [Row(end, false)];
      seriesStart := end;
    }
  }

  /** The windows from `first` on, one row more. */
  lemma NextRow(w: Windowing, first: int, a: int, end: int, more: bool)
    requires first == Start(w, first) && end == Start(w, end)
    requires if more then first <= a == Start(w, a) < end else first == end
    ensures more ==> Aligned(end - a, w.interval)
    ensures more ==> Dense(w, first, a) + Dense(w, a + w.interval, end - w.interval) + [end] == Dense(w, first, end)
    ensures !more ==> Dense(w, first, end) == [end]
  {
    if more {
      hide Start, Dense;
      StartShift(w, first);
      DenseRow(w, first - w.interval, a, end);
      assert first - w.interval + w.interval == first;
    } else {
      assert Dense(w, first, end) == [first] + Dense(w, first + w.interval, end);
    }
  }

  lemma NoTimes(w: Windowing)
    ensures Times([]) == [] && ValueStarts(w, []) == []
  {
  }
}

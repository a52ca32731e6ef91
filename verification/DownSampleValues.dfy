/**
  The values of a down-sampled column, on the rows of its field: which windows are sent
  with a value, said without the functions that compute them.
 */
module DownSampleValues {
  import opened DownSampleWindows
  import opened AggregateCursor
  import opened DownSampleAggregator

  /** Exactly the rows with a value are kept. */
  lemma {:induction false} KickExactly(rows: seq<RawRow>, t: int)
    ensures t in Kick(rows) <==> exists i :: 0 <= i < |rows| && !rows[i].isNil && rows[i].time == t
  {
    if rows != [] {
      var n := |rows| - 1;
      KickExactly(rows[..n], t);
      assert forall i :: 0 <= i < n ==> rows[..n][i] == rows[i];
    }
  }

  /** A row with a value lies in the window. */
  ghost predicate SegmentHas(w: Windowing, c: SeriesRecord, s: int) {
    exists i :: 0 <= i < |c.rows| && !c.rows[i].isNil && Start(w, c.rows[i].time) == s
  }

  ghost predicate HasValue(w: Windowing, g: seq<SeriesRecord>, s: int) {
    exists k :: 0 <= k < |g| && SegmentHas(w, g[k], s)
  }

  /** The window has a value in segment `k`, the next segment begins in it, and no later row
      with a value lies in it. */
  ghost predicate LostAt(w: Windowing, g: seq<SeriesRecord>, s: int, k: nat) {
    && k + 1 < |g| && SegmentHas(w, g[k], s) && g[k + 1].rows != [] && Start(w, g[k + 1].rows[0].time) == s
    && forall l :: k < l < |g| ==> !SegmentHas(w, g[l], s)
  }

  ghost predicate Lost(w: Windowing, g: seq<SeriesRecord>, s: int) {
    exists k: nat :: LostAt(w, g, s, k)
  }

  lemma WindowsOnRows(w: Windowing, rows: seq<RawRow>, s: int)
    ensures s in WindowsOf(w, Kick(rows))
       <==> exists i :: 0 <= i < |rows| && !rows[i].isNil && Start(w, rows[i].time) == s
  {
    hide Start, WindowsOf, Kick;
    var kicked := Kick(rows);
    WindowsIn(w, kicked);
    if s in WindowsOf(w, kicked) {
      var k :| 0 <= k < |kicked| && Start(w, kicked[k]) == s;
      KickExactly(rows, kicked[k]);
    }
    if i :| 0 <= i < |rows| && !rows[i].isNil && Start(w, rows[i].time) == s {
      KickExactly(rows, rows[i].time);
    }
  }

  /** The windows of a segment that are not held back. */
  lemma DueOnRows(w: Windowing, shardStart: int, g: seq<SeriesRecord>, s: int)
    requires g != [] && ValidGroup(w, shardStart, g)
    ensures s in Due(w, Kick(g[0].rows), GoesOnAfter(w, g, 0))
       <==> SegmentHas(w, g[0], s) && !(|g| > 1 && g[1].rows != [] && Start(w, g[1].rows[0].time) == s)
  {
    hide Start, WindowsOf, Kick;
    var kicked := Kick(g[0].rows);
    WindowsOnRows(w, g[0].rows, s);
    assert SegmentOf(shardStart, g[0], g[0]);
    KickMeaning(g[0].rows);
    WindowsMeaning(w, kicked);
    if kicked == [] {
      NoWindows(w);
    } else {
      WindowsEnd(w, kicked);
      if SegmentHas(w, g[0], s) && |g| > 1 {
        MeetsLast(w, shardStart, g, s);
      }
    }
  }

  /** A window in which the next segment begins is the last one of this segment, if it has
      a value of this segment at all. */
  lemma MeetsLast(w: Windowing, shardStart: int, g: seq<SeriesRecord>, s: int)
    requires |g| > 1 && ValidGroup(w, shardStart, g) && SegmentHas(w, g[0], s) && Kick(g[0].rows) != []
    ensures g[1].rows != []
    ensures var kicked := Kick(g[0].rows);
            s <= Start(w, kicked[|kicked| - 1]) <= Start(w, g[1].rows[0].time)
  {
    hide Start, Kick;
    var kicked := Kick(g[0].rows);
    assert SegmentOf(shardStart, g[0], g[0]) && SegmentOf(shardStart, g[1], g[0]) && Precedes(g[0], g[1]);
    KickMeaning(g[0].rows);
    var i :| 0 <= i < |g[0].rows| && !g[0].rows[i].isNil && Start(w, g[0].rows[i].time) == s;
    KickExactly(g[0].rows, g[0].rows[i].time);
    var k :| 0 <= k < |kicked| && kicked[k] == g[0].rows[i].time;
    var last := kicked[|kicked| - 1];
    assert last in kicked;
    KickExactly(g[0].rows, last);
    var m :| 0 <= m < |g[0].rows| && !g[0].rows[m].isNil && g[0].rows[m].time == last;
    StartsApart(w, kicked[k], last);
    StartsApart(w, last, g[1].rows[0].time);
  }

  /** If the next segment does not begin in a window of this one, no later row lies in it. */
  lemma NothingLater(w: Windowing, shardStart: int, g: seq<SeriesRecord>, s: int, l: nat)
    requires 0 < l < |g| && ValidGroup(w, shardStart, g) && SegmentHas(w, g[0], s)
    requires g[1].rows != [] ==> Start(w, g[1].rows[0].time) != s
    ensures !SegmentHas(w, g[l], s) && (g[l].rows != [] ==> Start(w, g[l].rows[0].time) != s)
  {
    hide Start;
    var i :| 0 <= i < |g[0].rows| && !g[0].rows[i].isNil && Start(w, g[0].rows[i].time) == s;
    assert SegmentOf(shardStart, g[l], g[0]) && SegmentOf(shardStart, g[1], g[0]);
    forall j | 0 <= j < |g[l].rows| ensures Start(w, g[l].rows[j].time) != s {
      NextSegment(w, shardStart, g, l, j, i);
      StartsApart(w, g[0].rows[i].time, g[1].rows[0].time);
      StartsApart(w, g[1].rows[0].time, g[l].rows[j].time);
    }
  }

  lemma ValueSplit(w: Windowing, g: seq<SeriesRecord>, s: int)
    requires g != []
    ensures HasValue(w, g, s) <==> SegmentHas(w, g[0], s) || HasValue(w, g[1..], s)
  {
    hide SegmentHas;
    var r := g[1..];
    if HasValue(w, g, s) {
      var k :| 0 <= k < |g| && SegmentHas(w, g[k], s);
      assert k > 0 ==> SegmentHas(w, r[k - 1], s);
    }
    if k :| 0 <= k < |r| && SegmentHas(w, r[k], s) {
      assert SegmentHas(w, g[k + 1], s);
    }
  }

  lemma LostSplit(w: Windowing, g: seq<SeriesRecord>, s: int)
    requires g != []
    ensures Lost(w, g, s) <==> LostAt(w, g, s, 0) || Lost(w, g[1..], s)
  {
    hide LostAt;
    if Lost(w, g, s) {
      var k: nat :| LostAt(w, g, s, k);
      if k > 0 {
        LostShift(w, g, s, k - 1);
      }
    }
    if Lost(w, g[1..], s) {
      var k: nat :| LostAt(w, g[1..], s, k);
      LostShift(w, g, s, k);
    }
  }

  lemma LostShift(w: Windowing, g: seq<SeriesRecord>, s: int, k: nat)
    requires g != []
    ensures LostAt(w, g[1..], s, k) <==> LostAt(w, g, s, k + 1)
  {
    hide SegmentHas, Start;
    var r := g[1..];
    forall l | k < l < |r| ensures r[l] == g[l + 1] {
    }
    forall l | k + 1 < l < |g| ensures g[l] == r[l - 1] {
    }
  }

  /** On rows: a window is sent with a value if and only if a row with a value lies in it and
      it is not lost to a next segment that begins in it but has no value there or later. */
  lemma {:induction false} DuesOnRows(w: Windowing, shardStart: int, g: seq<SeriesRecord>, s: int)
    requires ValidGroup(w, shardStart, g)
    ensures s in Dues(w, g) <==> HasValue(w, g, s) && !Lost(w, g, s)
  {
    hide Start, Kick, SegmentHas, ValidGroup, GoesOnAfter, Due;
    if g != [] {
      GroupTail(w, shardStart, g);
      DuesOnRows(w, shardStart, g[1..], s);
      DueOnRows(w, shardStart, g, s);
      ValueSplit(w, g, s);
      LostSplit(w, g, s);
      if SegmentHas(w, g[0], s) && !(|g| > 1 && g[1].rows != [] && Start(w, g[1].rows[0].time) == s) {
        NotLost(w, shardStart, g, s);
      } else {
        LaterOnly(w, g, s);
      }
    }
  }

  lemma NotLost(w: Windowing, shardStart: int, g: seq<SeriesRecord>, s: int)
    requires g != [] && ValidGroup(w, shardStart, g) && SegmentHas(w, g[0], s)
    requires |g| > 1 && g[1].rows != [] ==> Start(w, g[1].rows[0].time) != s
    ensures !Lost(w, g, s)
  {
    hide Start, SegmentHas, ValidGroup;
    forall l: nat | 0 < l < |g|
      ensures !SegmentHas(w, g[l], s) && (g[l].rows != [] ==> Start(w, g[l].rows[0].time) != s)
    {
      NothingLater(w, shardStart, g, s, l);
    }
  }

  /** A window that the first segment does not send is sent exactly if the rest sends it. */
  lemma LaterOnly(w: Windowing, g: seq<SeriesRecord>, s: int)
    requires g != []
    requires SegmentHas(w, g[0], s) ==> |g| > 1 && g[1].rows != [] && Start(w, g[1].rows[0].time) == s
    ensures (HasValue(w, g[1..], s) && !Lost(w, g[1..], s)) <==> HasValue(w, g, s) && !Lost(w, g, s)
  {
    hide Start, SegmentHas;
    ValueSplit(w, g, s);
    LostSplit(w, g, s);
    var r := g[1..];
    forall l | 0 < l < |g| ensures g[l] == r[l - 1] {
    }
    forall k | 0 <= k < |r| ensures r[k] == g[k + 1] {
    }
  }

  /** The rows of a column have a value exactly in the windows due. */
  ghost predicate ValuesRight(w: Windowing, field: seq<SeriesRecord>, rows: seq<Row>) {
    forall s :: (exists i :: 0 <= i < |rows| && !rows[i].isNil && Start(w, rows[i].time) == s)
           <==> HasValue(w, field, s) && !Lost(w, field, s)
  }

  lemma DeliversValues(w: Windowing, chunkSize: nat, shardStart: int, field: seq<SeriesRecord>, sent: seq<Row>)
    requires Delivers(w, chunkSize, shardStart, field, sent) && ValidGroup(w, shardStart, field)
    ensures ValuesRight(w, field, sent)
  {
    hide Start, ValueStarts, Dues, HasValue, Lost, ValidGroup, Times;
    forall s ensures (exists i :: 0 <= i < |sent| && !sent[i].isNil && Start(w, sent[i].time) == s)
                <==> HasValue(w, field, s) && !Lost(w, field, s)
    {
      ValueStartsMeaning(w, sent, s);
      DuesOnRows(w, shardStart, field, s);
    }
  }
}

/**
  A sorted record is cut at the borders of the shard groups it spans, and every piece
  is written to the shard of its group.
 */
module ShardSplit {
  import opened Multiples
  import opened DownSampleWindows

  const NOT_IN_SHARD_DURATION := -1

  ghost predicate SortedTimes(times: seq<int>) {
    forall i, j :: 0 <= i < j < |times| ==> times[i] <= times[j]
  }

  /** A piece of the record and the start of the shard group it goes to. */
  datatype Write = Write(group: int, from: nat, till: nat)

  /** How many groups the record spans. */
  method GroupCount(w: Windowing, startTime: int, endTime: int) returns (num: nat)
    requires startTime <= endTime
    ensures num > 0 && Start(w, endTime) == Later(w, Start(w, startTime), num - 1)
  {
    var first := Start(w, startTime);
    StartsApart(w, startTime, endTime);
    StartsApart(w, endTime, endTime);
    ghost var n := AlignedIsMultiple(Start(w, endTime) - first, w.interval);
    hide Start;
    QuotRem(endTime - first, w.interval, n, endTime - Start(w, endTime));
    num := (endTime - first) / w.interval + 1;
    LaterIsProduct(w, first, n);
  }

  /** The shard groups of a time range, one after the other. */
  method CreateShardGroupsByTimeRange(w: Windowing, start: int, end: int) returns (sgis: seq<int>)
    requires start <= end
    ensures sgis == Dense(w, Start(w, start), Start(w, end))
  {
    hide Start, Dense, Aligned, Later;
    var num := GroupCount(w, start, end);
    sgis := [];
    var startTime := start;
    ghost var first := Start(w, start);
    DenseEmpty(w, first, first - w.interval);
    LaterNone(w, first);
    for i := 0 to num
      invariant Start(w, startTime) == Later(w, first, i)
      invariant sgis == Dense(w, first, Later(w, first, i) - w.interval)
    {
      LaterAligned(w, first, i);
      LaterShift(w, first, i);
      DenseSnoc(w, first, Later(w, first, i));
      sgis := sgis + [Start(w, startTime)];
      StartShift(w, startTime);
      LaterNext(w, first, i);
      startTime := startTime + w.interval;
    }
    LaterNext(w, first, num - 1);
  }

  lemma LaterNone(w: Windowing, from: int)
    ensures Later(w, from, 0) == from
  {
  }

  lemma LaterNext(w: Windowing, from: int, j: nat)
    ensures Later(w, from, j + 1) == Later(w, from, j) + w.interval
  {
  }

  /** The number of rows from `start` on that are before the end of the group. */
  method SearchLowerBoundOfRec(times: seq<int>, groupStart: int, groupEnd: int, start: nat) returns (interval: int)
    requires SortedTimes(times) && start <= |times|
    ensures interval == NOT_IN_SHARD_DURATION
       <==> start == |times| || times[start] >= groupEnd || times[|times| - 1] < groupStart
    ensures interval != NOT_IN_SHARD_DURATION ==>
              && 0 < interval <= |times| - start
              && (forall i :: start <= i < start + interval ==> times[i] < groupEnd)
              && (forall i :: start + interval <= i < |times| ==> groupEnd <= times[i])
  {
    if |times| - start <= 0 || times[start] >= groupEnd || times[|times| - 1] < groupStart {
      return NOT_IN_SHARD_DURATION;
    }
    var i, j := 0, |times| - start;
    while i < j
      invariant 0 <= i <= j <= |times| - start
      invariant forall k :: start <= k < start + i ==> times[k] < groupEnd
      invariant forall k :: start + j <= k < |times| ==> groupEnd <= times[k]
    {
      var h := (i + j) / 2;
      if !(times[h + start] >= groupEnd) {
        i := h + 1;
      } else {
        j := h;
      }
    }
    interval := i;
  }

  /** The pieces are not empty, follow each other, cover the first `n` rows, and every
      row of a piece is in the group of the piece. */
  ghost predicate Tiles(w: Windowing, times: seq<int>, writes: seq<Write>, n: nat) {
    && n <= |times|
    && (if writes == [] then n == 0 else writes[0].from == 0 && writes[|writes| - 1].till == n)
    && (forall k :: 0 <= k < |writes| ==> writes[k].from < writes[k].till <= n)
    && (forall k :: 0 < k < |writes| ==> writes[k - 1].till == writes[k].from && writes[k - 1].group < writes[k].group)
    && (forall k, i :: 0 <= k < |writes| && writes[k].from <= i < writes[k].till ==>
          Start(w, times[i]) == writes[k].group)
  }

  /** Some row of the record is in the group. */
  ghost predicate Hit(w: Windowing, times: seq<int>, group: int) {
    exists i :: 0 <= i < |times| && Start(w, times[i]) == group
  }

  /** The rows before `start` are before group `g`, the others are not. */
  ghost predicate CutAt(times: seq<int>, start: nat, g: int) {
    && start <= |times|
    && (forall i :: 0 <= i < start ==> times[i] < g)
    && (forall i :: start <= i < |times| ==> g <= times[i])
  }

  lemma NextGroup(w: Windowing, times: seq<int>, start: nat, g: int, end: nat)
    requires SortedTimes(times) && CutAt(times, start, g) && g == Start(w, g) && start <= end <= |times|
    requires CutAt(times, end, g + w.interval)
    ensures forall i :: start <= i < end ==> Start(w, times[i]) == g
    ensures Hit(w, times, g) <==> start < end
  {
    hide Start;
    forall i | 0 <= i < |times| ensures start <= i < end <==> Start(w, times[i]) == g {
      StartsApart(w, times[i], g);
      if start <= i < end {
        StartUnique(w, times[i], g, g);
      }
    }
    assert start < end ==> Start(w, times[start]) == g;
  }

  /** One group: the piece of the record in it, if any. */
  method SplitGroup(w: Windowing, times: seq<int>, start0: nat, g: int) returns (start: nat, skipped: bool)
    requires SortedTimes(times) && CutAt(times, start0, g) && g == Start(w, g) && start0 < |times|
          && g <= times[|times| - 1]
    ensures start0 <= start <= |times| && CutAt(times, start, g + w.interval)
    ensures skipped <==> start == start0
    ensures skipped <==> !Hit(w, times, g)
    ensures forall i :: start0 <= i < start ==> Start(w, times[i]) == g
  {
    hide Start;
    var interval := SearchLowerBoundOfRec(times, g, g + w.interval, start0);
    skipped := interval == NOT_IN_SHARD_DURATION;
    start := if skipped then start0 else start0 + interval;
    NextGroup(w, times, start0, g, start);
  }

  lemma TilesSnoc(w: Windowing, times: seq<int>, writes: seq<Write>, n: nat, g: int, m: nat)
    requires Tiles(w, times, writes, n) && n < m <= |times| && (writes != [] ==> writes[|writes| - 1].group < g)
    requires forall i :: n <= i < m ==> Start(w, times[i]) == g
    ensures Tiles(w, times, writes + [Write(g, n, m)], m)
  {
    hide Start;
  }

  /** The pieces of a sorted record cover it; the result is an error exactly if a group
      between the first and the last row has no row, although every row is written. */
  method SplitAndWriteByShard(w: Windowing, times: seq<int>) returns (writes: seq<Write>, failed: bool)
    requires SortedTimes(times) && times != []
    ensures Tiles(w, times, writes, |times|)
    ensures failed <==> exists g :: g in Dense(w, Start(w, times[0]), Start(w, times[|times| - 1])) && !Hit(w, times, g)
  {
    hide Start, Dense, CutAt, Tiles, Hit, SortedTimes;
    var last := times[|times| - 1];
    FirstCut(w, times);
    var sgis := CreateShardGroupsByTimeRange(w, times[0], last);
    writes, failed := [], false;
    var start: nat := 0;
    ghost var g := Start(w, times[0]);
    assert sgis[0..] == sgis;
    for i := 0 to |sgis|
      invariant g == Start(w, g) <= Start(w, last) + w.interval && sgis[i..] == Dense(w, g, Start(w, last))
      invariant CutAt(times, start, g) && Tiles(w, times, writes, start)
             && (writes != [] ==> writes[|writes| - 1].group < g)
      invariant failed <==> exists k :: 0 <= k < i && !Hit(w, times, sgis[k])
    {
      GroupAhead(w, times, start, g, sgis[i..]);
      assert sgis[i] == sgis[i..][0] && sgis[i..][1..] == sgis[i + 1..];
      var end, skipped := SplitGroup(w, times, start, sgis[i]);
      if skipped {
        failed := true;
      } else {
        TilesSnoc(w, times, writes, start, sgis[i], end);
        writes := writes + [Write(sgis[i], start, end)];
      }
      start := end;
      StartShift(w, g);
      g := g + w.interval;
    }
    AllCut(w, times, start, g);
    assert forall x :: x in sgis <==> exists k :: 0 <= k < |sgis| && sgis[k] == x;
  }

  lemma FirstCut(w: Windowing, times: seq<int>)
    requires SortedTimes(times) && times != []
    ensures times[0] <= times[|times| - 1] && CutAt(times, 0, Start(w, times[0])) && Tiles(w, times, [], 0)
    ensures Start(w, Start(w, times[0])) == Start(w, times[0]) <= Start(w, times[|times| - 1])
  {
    hide Start;
    StartShift(w, times[0]);
    StartsApart(w, times[0], times[|times| - 1]);
    assert forall i :: 0 < i < |times| ==> times[0] <= times[i];
  }

  /** As long as a group is left, a row is left, so the row read for the error exists. */
  lemma GroupAhead(w: Windowing, times: seq<int>, start: nat, g: int, rest: seq<int>)
    requires times != [] && CutAt(times, start, g) && rest == Dense(w, g, Start(w, times[|times| - 1])) && rest != []
    ensures rest[0] == g && rest[1..] == Dense(w, g + w.interval, Start(w, times[|times| - 1]))
    ensures start < |times| && g <= Start(w, times[|times| - 1]) && g <= times[|times| - 1]
  {
    hide Start;
    StartsApart(w, times[|times| - 1], times[|times| - 1]);
  }

  lemma AllCut(w: Windowing, times: seq<int>, start: nat, g: int)
    requires times != [] && CutAt(times, start, g) && Dense(w, g, Start(w, times[|times| - 1])) == []
          && SortedTimes(times)
    requires g == Start(w, g)
    ensures start == |times|
  {
    hide Start;
    var last := times[|times| - 1];
    if start < |times| {
      assert g <= last;
      StartsApart(w, g, last);
    }
  }

  /** Two rows with an empty group between them: the result is an error. */
  lemma GroupInBetweenIsEmpty(w: Windowing, times: seq<int>)
    requires w == Windowing(10, 0) && times == [0, 25]
    ensures SortedTimes(times) && 10 in Dense(w, Start(w, times[0]), Start(w, times[1])) && !Hit(w, times, 10)
  {
    hide Start, Dense;
    GroupsHere(w);
    DenseFirst(w, 0, 20);
    DenseFirst(w, 10, 20);
  }

  lemma GroupsHere(w: Windowing)
    requires w == Windowing(10, 0)
    ensures Start(w, 0) == 0 && Start(w, 25) == 20
  {
    assert Start(w, 0) == 0;
    hide Start;
    StartShift(w, 0);
    StartShift(w, 10);
    StartUnique(w, 25, 20, 10);
  }

  lemma DenseFirst(w: Windowing, a: int, b: int)
    requires a <= b
    ensures Dense(w, a, b) == [a] + Dense(w, a + w.interval, b)
  {
  }
}

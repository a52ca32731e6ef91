/**
  Incremental queries read the fragments of all files in slices of a fixed size. The
  slices of all iterations together are every fragment of every file once and in order.
 */
module FragmentSlices {
  import opened Options

  const INC_DATA_SEGMENT_NUM := 16

  datatype RangeRaw = Range(start: nat, end: nat)
  type Range = r: RangeRaw | r.start <= r.end witness Range(0, 0)

  /** The fragment ranges of one file. */
  datatype Entry = Entry(index: nat, ranges: seq<Range>)

  datatype Frags = Frags(entries: seq<Entry>, fragCount: nat)

  /** One fragment of one file. */
  datatype Point = Point(index: nat, fragment: nat)

  function RangePoints(index: nat, r: Range): seq<Point> {
    seq(r.end - r.start, i requires 0 <= i < r.end - r.start => Point(index, r.start + i))
  }

  function PointsOfRanges(index: nat, ranges: seq<Range>): seq<Point> {
    if ranges == [] then []
    else PointsOfRanges(index, ranges[..|ranges| - 1]) + RangePoints(index, ranges[|ranges| - 1])
  }

  function Points(entries: seq<Entry>): seq<Point> {
    if entries == [] then []
    else
      var last := entries[|entries| - 1];
      Points(entries[..|entries| - 1]) + PointsOfRanges(last.index, last.ranges)
  }

  lemma {:induction false} RangesMean(index: nat, ranges: seq<Range>, p: Point)
    ensures p in PointsOfRanges(index, ranges)
       <==> p.index == index && exists k :: 0 <= k < |ranges| && ranges[k].start <= p.fragment < ranges[k].end
  {
    if ranges != [] {
      var n := |ranges| - 1;
      RangesMean(index, ranges[..n], p);
      RangeMeans(index, ranges[n], p);
      assert forall k :: 0 <= k < n ==> ranges[..n][k] == ranges[k];
    }
  }

  lemma RangeMeans(index: nat, r: Range, p: Point)
    ensures p in RangePoints(index, r) <==> p.index == index && r.start <= p.fragment < r.end
  {
    if p.index == index && r.start <= p.fragment < r.end {
      assert RangePoints(index, r)[p.fragment - r.start] == p;
    }
  }

  /** The fragment is inside a range of its file. */
  ghost predicate Has(e: Entry, p: Point) {
    p.index == e.index && exists k :: 0 <= k < |e.ranges| && e.ranges[k].start <= p.fragment < e.ranges[k].end
  }

  /** The fragments are those inside the ranges. */
  lemma {:induction false} PointsMean(entries: seq<Entry>, p: Point)
    ensures p in Points(entries) <==> exists e :: e in entries && Has(e, p)
  {
    hide PointsOfRanges;
    if entries != [] {
      var n := |entries| - 1;
      PointsMean(entries[..n], p);
      var last := entries[n];
      RangesMean(last.index, last.ranges, p);
      assert p in PointsOfRanges(last.index, last.ranges) <==> Has(last, p);
      assert entries == entries[..n] + [last] && last in entries;
      forall e ensures e in entries <==> e in entries[..n] || e == last {
      }
    }
  }

  function Min(a: int, b: int): int { if a <= b then a else b }

  /** The part of `pts` at positions from `start` up to `end`. */
  function Cut(pts: seq<Point>, start: nat, end: nat): seq<Point>
    requires start <= end
  {
    pts[Min(start, |pts|)..Min(end, |pts|)]
  }

  lemma CutConcat(a: seq<Point>, b: seq<Point>, start: nat, end: nat)
    requires start <= end
    ensures Cut(a + b, start, end)
         == Cut(a, start, end)
            + b[Min(if start <= |a| then 0 else start - |a|, |b|)..Min(if end <= |a| then 0 else end - |a|, |b|)]
  {
  }

  /** The fragments of all scanned files and their number. */
  method GetBatchFrag(scanned: seq<Entry>) returns (frags: Option<Frags>)
    ensures frags.None? <==> Points(scanned) == []
    ensures frags.Some? ==> Points(frags.value.entries) == Points(scanned) && frags.value.fragCount == |Points(scanned)|
  {
    var entries, fragCount: nat := [], 0;
    for i := 0 to |scanned|
      invariant Points(entries) == Points(scanned[..i]) && fragCount == |Points(entries)|
    {
      var fragmentCount: nat := 0;
      var ranges := scanned[i].ranges;
      for j := 0 to |ranges|
        invariant fragmentCount == |PointsOfRanges(scanned[i].index, ranges[..j])|
      {
        assert ranges[..j + 1][..j] == ranges[..j];
        fragmentCount := fragmentCount + (ranges[j].end - ranges[j].start);
      }
      assert ranges[..|ranges|] == ranges;
      assert scanned[..i + 1][..i] == scanned[..i];
      if fragmentCount == 0 {
        continue;
      }
      EntriesSnoc(entries, scanned[i]);
      entries := entries + [scanned[i]];
      fragCount := fragCount + fragmentCount;
    }
    assert scanned[..|scanned|] == scanned;
    if fragCount == 0 {
      return None;
    }
    return Some(Frags(entries, fragCount));
  }

  lemma EntriesSnoc(entries: seq<Entry>, e: Entry)
    ensures Points(entries + [e]) == Points(entries) + PointsOfRanges(e.index, e.ranges)
  {
    assert (entries + [e])[..|entries|] == entries;
  }

  lemma RangesSnoc(index: nat, ranges: seq<Range>, r: Range)
    ensures PointsOfRanges(index, ranges + [r]) == PointsOfRanges(index, ranges) + RangePoints(index, r)
  {
    assert (ranges + [r])[..|ranges|] == ranges;
  }

  /** The part of one range that is in the slice; `readCount` fragments precede it. */
  method SliceRange(index: nat, r: Range, readCount0: nat, start: nat, end: nat)
    returns (piece: Option<Range>, readCount: nat)
    requires readCount0 < end && start <= end
    ensures readCount == Min(readCount0 + (r.end - r.start), end)
    ensures (if piece.Some? then RangePoints(index, piece.value) else [])
         == RangePoints(index, r)[Min(if start <= readCount0 then 0
                                      else start - readCount0, r.end - r.start)..Min(end - readCount0, r.end - r.start)]
  {
    hide RangePoints;
    RangeLength(index, r);
    var currCount := r.end - r.start;
    if readCount0 + currCount <= start {
      return None, readCount0 + currCount;
    }
    var currStart := r.start;
    if readCount0 < start {
      currStart := start - readCount0 + r.start;
    }
    if readCount0 + currCount <= end {
      PartOfRange(index, r, currStart - r.start, currCount);
      return Some(Range(currStart, r.end)), readCount0 + currCount;
    }
    var at := readCount0;
    if at < start {
      at := start;
    }
    var currEnd := end - at + currStart;
    PartOfRange(index, r, currStart - r.start, currEnd - r.start);
    return Some(Range(currStart, currEnd)), end;
  }

  /** The part of one file that is in the slice. `before` are the fragments that precede it. */
  method SliceFile(e: Entry, ghost before: seq<Point>, readCount0: nat, start: nat, end: nat)
    returns (currFrs: seq<Range>, readCount: nat)
    requires readCount0 == |before| < end && start <= end
    ensures var all := before + PointsOfRanges(e.index, e.ranges);
            && readCount == Min(|all|, end)
            && Cut(before, start, end) + PointsOfRanges(e.index, currFrs) == Cut(all, start, end)
  {
    hide Cut, RangePoints, PointsOfRanges;
    currFrs, readCount := [], readCount0;
    ghost var done := before;
    NoRanges(e.index);
    assert e.ranges[..0] == [];
    var i := 0;
    while i < |e.ranges|
      invariant i <= |e.ranges| && done == before + PointsOfRanges(e.index, e.ranges[..i])
      invariant readCount == Min(|done|, end)
      invariant Cut(before, start, end) + PointsOfRanges(e.index, currFrs) == Cut(done, start, end)
    {
      if readCount >= end {
        CutFull(before, e.index, e.ranges, i, start, end);
        return;
      }
      var piece;
      ghost var pts, got := RangePoints(e.index, e.ranges[i]), PointsOfRanges(e.index, currFrs);
      RangeLength(e.index, e.ranges[i]);
      RangesSnoc(e.index, e.ranges[..i], e.ranges[i]);
      assert e.ranges[..i] + [e.ranges[i]] == e.ranges[..i + 1];
      piece, readCount := SliceRange(e.index, e.ranges[i], readCount, start, end);
      SliceStep(Cut(before, start, end), got, done, pts, if piece.Some? then RangePoints(e.index, piece.value)
                else [], start, end);
      if piece.Some? {
        RangesSnoc(e.index, currFrs, piece.value);
        currFrs := currFrs + [piece.value];
      }
      i, done := i + 1, done + pts;
    }
    assert e.ranges[..|e.ranges|] == e.ranges;
  }

  lemma SliceStep(base: seq<Point>, got: seq<Point>, done: seq<Point>, pts: seq<Point>, add: seq<Point>, start: nat,
                  end: nat)
    requires start <= end && |done| < end && base + got == Cut(done, start, end)
    requires add == pts[Min(if start <= |done| then 0 else start - |done|, |pts|)..Min(end - |done|, |pts|)]
    ensures base + (got + add) == Cut(done + pts, start, end)
         && (add == [] ==> base + got == Cut(done + pts, start, end))
  {
    hide Cut;
    CutConcat(done, pts, start, end);
    assert base + (got + add) == base + got + add;
  }

  lemma PartOfRange(index: nat, r: Range, a: nat, b: nat)
    requires a <= b <= r.end - r.start
    ensures RangePoints(index, Range(r.start + a, r.start + b)) == RangePoints(index, r)[a..b]
  {
  }

  lemma RangeLength(index: nat, r: Range)
    ensures |RangePoints(index, r)| == r.end - r.start
  {
  }

  lemma NoRanges(index: nat)
    ensures PointsOfRanges(index, []) == []
  {
  }

  /** Nothing after the end of the slice matters. */
  lemma {:induction false} CutFull(before: seq<Point>, index: nat, ranges: seq<Range>, i: nat, start: nat, end: nat)
    requires i <= |ranges| && start <= end <= |before + PointsOfRanges(index, ranges[..i])|
    ensures Cut(before + PointsOfRanges(index, ranges), start, end)
         == Cut(before + PointsOfRanges(index, ranges[..i]), start, end)
    ensures end <= |before + PointsOfRanges(index, ranges)|
    decreases |ranges|
  {
    if i < |ranges| {
      var n := |ranges| - 1;
      assert ranges[..n][..i] == ranges[..i];
      CutFull(before, index, ranges[..n], i, start, end);
    } else {
      assert ranges[..i] == ranges;
    }
  }

  lemma {:induction false} CutFullEntries(entries: seq<Entry>, i: nat, start: nat, end: nat)
    requires i <= |entries| && start <= end <= |Points(entries[..i])|
    ensures Cut(Points(entries), start, end) == Cut(Points(entries[..i]), start, end)
    ensures end <= |Points(entries)|
    decreases |entries|
  {
    hide PointsOfRanges;
    if i < |entries| {
      var n := |entries| - 1;
      assert entries[..n][..i] == entries[..i];
      CutFullEntries(entries[..n], i, start, end);
    } else {
      assert entries[..i] == entries;
    }
  }

  /** The fragments at positions from `start` up to `end`, by file. */
  method SliceFiles(entries: seq<Entry>, start: nat, end: nat) returns (out: seq<Entry>)
    requires start <= end <= |Points(entries)|
    ensures Points(out) == Cut(Points(entries), start, end)
    ensures forall k :: 0 <= k < |out| ==> out[k].ranges != []
  {
    hide Points, PointsOfRanges, Cut;
    out := [];
    var readCount: nat, i := 0, 0;
    NoEntries(start, end);
    assert entries[..0] == [];
    while i < |entries|
      invariant i <= |entries| && readCount == Min(|Points(entries[..i])|, end)
      invariant Points(out) == Cut(Points(entries[..i]), start, end)
      invariant forall k :: 0 <= k < |out| ==> out[k].ranges != []
    {
      if readCount >= end {
        CutFullEntries(entries, i, start, end);
        return;
      }
      EntriesSnoc(entries[..i], entries[i]);
      assert entries[..i] + [entries[i]] == entries[..i + 1];
      var currFrs;
      currFrs, readCount := SliceFile(entries[i], Points(entries[..i]), readCount, start, end);
      if currFrs == [] {
        NoRanges(entries[i].index);
      } else {
        EntriesSnoc(out, Entry(entries[i].index, currFrs));
        out := out + [Entry(entries[i].index, currFrs)];
      }
      i := i + 1;
    }
    assert entries[..|entries|] == entries;
  }

  lemma NoEntries(start: nat, end: nat)
    requires start <= end
    ensures Points([]) == [] && Cut([], start, end) == []
  {
  }

  function IterNum(totalCount: nat): (n: nat)
    ensures totalCount <= n * INC_DATA_SEGMENT_NUM < totalCount + INC_DATA_SEGMENT_NUM
  {
    (totalCount + INC_DATA_SEGMENT_NUM - 1) / INC_DATA_SEGMENT_NUM
  }

  /** The slice of one iteration, and none from iteration `IterNum` on. */
  method InitInc(frag: Frags, currIter: nat) returns (slice: Option<Frags>)
    requires frag.fragCount == |Points(frag.entries)|
    ensures slice.None? <==> IterNum(frag.fragCount) <= currIter
    ensures slice.Some? ==>
              && Points(slice.value.entries)
                 == Cut(Points(frag.entries), currIter * INC_DATA_SEGMENT_NUM, (currIter + 1) * INC_DATA_SEGMENT_NUM)
              && slice.value.fragCount == |Points(slice.value.entries)| > 0
              && forall k :: 0 <= k < |slice.value.entries| ==> slice.value.entries[k].ranges != []
  {
    hide Points;
    if currIter >= IterNum(frag.fragCount) {
      return None;
    }
    var start := currIter * INC_DATA_SEGMENT_NUM;
    var end := if (currIter + 1) * INC_DATA_SEGMENT_NUM > frag.fragCount then frag.fragCount
        else (currIter + 1) * INC_DATA_SEGMENT_NUM;
    var entries := SliceFiles(frag.entries, start, end);
    return Some(Frags(entries, end - start));
  }

  function JoinedPoints(slices: seq<Frags>): seq<Point> {
    if slices == [] then [] else JoinedPoints(slices[..|slices| - 1]) + Points(slices[|slices| - 1].entries)
  }

  /** How many of `n` fragments are in slice `k`. */
  ghost function SizeOf(n: nat, k: nat): int {
    if (k + 1) * 16 <= n then 16 else n - k * 16
  }

  lemma CutSize(all: seq<Point>, k: nat)
    requires k < IterNum(|all|)
    ensures |Cut(all, k * INC_DATA_SEGMENT_NUM, (k + 1) * INC_DATA_SEGMENT_NUM)| == SizeOf(|all|, k) <= 16
  {
  }

  lemma CutNext(all: seq<Point>, k: nat)
    ensures Cut(all, 0, k * INC_DATA_SEGMENT_NUM) + Cut(all, k * INC_DATA_SEGMENT_NUM, (k + 1) * INC_DATA_SEGMENT_NUM)
         == Cut(all, 0, (k + 1) * INC_DATA_SEGMENT_NUM)
    ensures Cut(all, 0, 0) == []
  {
  }

  lemma CutAll(all: seq<Point>, k: nat)
    requires IterNum(|all|) <= k
    ensures Cut(all, 0, k * INC_DATA_SEGMENT_NUM) == all
  {
    CountReached(|all|, k);
  }

  lemma CountReached(n: nat, k: nat)
    requires IterNum(n) <= k
    ensures n <= k * INC_DATA_SEGMENT_NUM
  {
  }

  /** Every slice but the last one is full. */
  lemma FullSlice(n: nat, k: nat, slices: nat)
    requires slices == IterNum(n) && k + 1 < slices
    ensures SizeOf(n, k) == 16
  {
  }

  /** All iterations of a query: together every fragment of every file once and in order. */
  method AllIterations(scanned: seq<Entry>) returns (slices: seq<Frags>)
    ensures JoinedPoints(slices) == Points(scanned)
    ensures |slices| == IterNum(|Points(scanned)|)
    ensures forall k :: 0 <= k < |slices| ==> 0 < slices[k].fragCount <= 16
    ensures forall k :: 0 <= k < |slices| - 1 ==> slices[k].fragCount == 16
  {
    hide Points, SizeOf, Cut, IterNum;
    slices := [];
    var frags := GetBatchFrag(scanned);
    if frags.None? {
      return;
    }
    ghost var all := Points(scanned);
    var iter: nat := 0;
    CutNext(all, 0);
    while true
      invariant iter == |slices| <= IterNum(|all|)
      invariant JoinedPoints(slices) == Cut(all, 0, iter * INC_DATA_SEGMENT_NUM)
      invariant forall k :: 0 <= k < |slices| ==> 0 < slices[k].fragCount <= 16
      invariant forall k :: 0 <= k < |slices| ==> slices[k].fragCount == SizeOf(|all|, k)
      decreases IterNum(|all|) - iter
    {
      var slice := InitInc(frags.value, iter);
      CutNext(all, iter);
      if slice.None? {
        CutAll(all, iter);
        forall k: nat | k < |slices| - 1 ensures slices[k].fragCount == 16 {
          FullSlice(|all|, k, |slices|);
        }
        return;
      }
      CutSize(all, iter);
      ghost var before := slices;
      slices := slices + [slice.value];
      assert slices[..|before|] == before;
      iter := iter + 1;
    }
  }
}

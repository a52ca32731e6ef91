/**
  The stream reader over detached files: blocks are filtered by time and by the skip
  indexes batch by batch, while they are read, from the front or from the back.
 */
module LazyBlockReader {
  import opened Options

  const BATCH_READER_RECORD_NUM := 8

  datatype TimeRange = TimeRange(min: int, max: int) {
    predicate Overlaps(lo: int, hi: int) {
      min <= hi && max >= lo
    }
  }

  /** A file: its time range, the times at the borders of its blocks, and for every
      block whether each skip index keeps it. */
  datatype FileRaw = File(minTime: int, maxTime: int, times: seq<int>, skips: seq<seq<bool>>)
  type File = f: FileRaw | |f.times| == |f.skips| + 1 witness File(0, 0, [0], [])

  predicate IsExist(f: File, tr: TimeRange) {
    !(f.minTime > tr.max || f.maxTime < tr.min)
  }

  /** The block overlaps the time range and passes every skip index. */
  predicate Wanted(f: File, tr: TimeRange, b: nat)
    requires b < |f.skips|
  {
    tr.Overlaps(f.times[b], f.times[b + 1]) && forall j :: 0 <= j < |f.skips[b]| ==> f.skips[b][j]
  }

  datatype Delivered = Delivered(file: nat, block: nat)

  /** The `k`-th of `n` in the order of the query. */
  function Visit(ascending: bool, n: nat, k: nat): nat
    requires k < n
  {
    if ascending then k else n - 1 - k
  }

  /** The wanted blocks of file `i` from the `k`-th on. */
  function BlocksFrom(f: File, tr: TimeRange, ascending: bool, i: nat, k: nat): seq<Delivered>
    decreases |f.skips| - k
  {
    if k >= |f.skips| then []
    else
      var b := Visit(ascending, |f.skips|, k);
      (if Wanted(f, tr, b) then [Delivered(i, b)] else []) + BlocksFrom(f, tr, ascending, i, k + 1)
  }

  function OfFile(f: File, tr: TimeRange, ascending: bool, i: nat, k: nat): seq<Delivered> {
    if IsExist(f, tr) then BlocksFrom(f, tr, ascending, i, k) else []
  }

  /** The wanted blocks of the files from the `k`-th on. */
  function FilesFrom(files: seq<File>, tr: TimeRange, ascending: bool, k: nat): seq<Delivered>
    decreases |files| - k
  {
    if k >= |files| then []
    else
      var i := Visit(ascending, |files|, k);
      OfFile(files[i], tr, ascending, i, 0) + FilesFrom(files, tr, ascending, k + 1)
  }

  lemma BlocksNext(f: File, tr: TimeRange, ascending: bool, i: nat, k: nat)
    requires k < |f.skips|
    ensures var b := Visit(ascending, |f.skips|, k);
            BlocksFrom(f, tr, ascending, i, k)
            == if Wanted(f, tr, b) then [Delivered(i, b)] + BlocksFrom(f, tr, ascending, i, k + 1)
               else BlocksFrom(f, tr, ascending, i, k + 1)
  {
  }

  lemma NothingLeft(files: seq<File>, tr: TimeRange, ascending: bool, idx: nat, k: nat)
    requires idx >= |files|
    ensures Rest(files, tr, ascending, idx, k) == []
  {
  }

  /** The wanted blocks from block `k` of the `idx`-th file on. */
  function Rest(files: seq<File>, tr: TimeRange, ascending: bool, idx: nat, k: nat): seq<Delivered> {
    if idx >= |files| then []
    else
      var i := Visit(ascending, |files|, idx);
      OfFile(files[i], tr, ascending, i, k) + FilesFrom(files, tr, ascending, idx + 1)
  }

  function Left(files: seq<File>, ascending: bool, idx: nat, k: nat): int {
    if idx >= |files| then 0 else |files[Visit(ascending, |files|, idx)].skips| - k
  }

  /** A file with no block left, or outside the time range, is done. */
  lemma FileDone(files: seq<File>, tr: TimeRange, ascending: bool, idx: nat, k: nat)
    requires idx < |files|
    ensures var f := files[Visit(ascending, |files|, idx)];
            k >= |f.skips| || !IsExist(f, tr) ==>
              Rest(files, tr, ascending, idx, k) == Rest(files, tr, ascending, idx + 1, 0)
  {
    var i := Visit(ascending, |files|, idx);
    if k >= |files[i].skips| || !IsExist(files[i], tr) {
      assert OfFile(files[i], tr, ascending, i, k) == [];
      assert Rest(files, tr, ascending, idx + 1, 0) == FilesFrom(files, tr, ascending, idx + 1);
    }
  }

  lemma BatchTaken(files: seq<File>, tr: TimeRange, ascending: bool, idx: nat, k: nat, next: nat, batch: seq<Delivered>)
    requires idx < |files| && IsExist(files[Visit(ascending, |files|, idx)], tr)
    requires var i := Visit(ascending, |files|, idx);
             batch + BlocksFrom(files[i], tr, ascending, i, next) == BlocksFrom(files[i], tr, ascending, i, k)
    ensures Rest(files, tr, ascending, idx, k) == batch + Rest(files, tr, ascending, idx, next)
  {
    hide BlocksFrom, FilesFrom, IsExist;
  }

  class StreamDetachedReader {
    const files: seq<File>
    const tr: TimeRange
    const ascending: bool
    var idx: nat
    var blockId: nat
    var isInitDataReader: bool
    var isClose: bool
    // the blocks of the data reader that are not read yet
    var dataReader: seq<Delivered>

    constructor (files: seq<File>, tr: TimeRange, ascending: bool)
      ensures this.files == files && this.tr == tr && this.ascending == ascending
      ensures Valid() && !isClose && Remaining() == FilesFrom(files, tr, ascending, 0)
    {
      this.files, this.tr, this.ascending := files, tr, ascending;
      idx, blockId, isInitDataReader, isClose, dataReader := 0, 0, false, false, [];
    }

    ghost predicate Valid()
      reads this
    {
      && (idx < |files| ==> blockId <= |files[Visit(ascending, |files|, idx)].skips|)
      && (isInitDataReader ==> idx < |files|)
      && |dataReader| <= BATCH_READER_RECORD_NUM
    }

    /** The blocks still to be delivered: those of the current batch first. */
    ghost function Remaining(): seq<Delivered>
      requires Valid()
      reads this
    {
      (if isInitDataReader then dataReader else []) + Rest(files, tr, ascending, idx, blockId)
    }

    method ResetIndex()
      modifies this`idx, this`blockId, this`isInitDataReader
      ensures blockId == 0 && !isInitDataReader && idx == old(idx) + 1
    {
      blockId := 0;
      isInitDataReader := false;
      idx := idx + 1;
    }

    /** Whether every skip index keeps the block. */
    method FilterBySk(f: File, b: nat) returns (isExist: bool)
      requires b < |f.skips|
      ensures isExist <==> forall j :: 0 <= j < |f.skips[b]| ==> f.skips[b][j]
    {
      isExist := true;
      for j := 0 to |f.skips[b]|
        invariant isExist && forall k :: 0 <= k < j ==> f.skips[b][k]
      {
        if !f.skips[b][j] {
          isExist := false;
          break;
        }
      }
    }

    /** Wanted blocks of a file from its `first`-th block on, up to a full batch. */
    method FillBatch(f: File, i: nat, first: nat) returns (currBlocks: seq<Delivered>, next: nat)
      requires first < |f.skips|
      ensures first < next <= |f.skips| && |currBlocks| <= BATCH_READER_RECORD_NUM
      ensures currBlocks + BlocksFrom(f, tr, ascending, i, next) == BlocksFrom(f, tr, ascending, i, first)
      ensures |currBlocks| == BATCH_READER_RECORD_NUM || next == |f.skips|
    {
      hide BlocksFrom;
      currBlocks, next := [], first;
      while next < |f.skips| && |currBlocks| < BATCH_READER_RECORD_NUM
        invariant first <= next <= |f.skips| && |currBlocks| <= BATCH_READER_RECORD_NUM
        invariant next == first ==> currBlocks == []
        invariant currBlocks + BlocksFrom(f, tr, ascending, i, next) == BlocksFrom(f, tr, ascending, i, first)
      {
        var currBlockId := Visit(ascending, |f.skips|, next);
        BlocksNext(f, tr, ascending, i, next);
        next := next + 1;
        if !tr.Overlaps(f.times[currBlockId], f.times[currBlockId + 1]) {
          continue;
        }
        var kept := FilterBySk(f, currBlockId);
        if kept {
          currBlocks := currBlocks + [Delivered(i, currBlockId)];
        }
      }
    }

    /** The next batch of wanted blocks of the current file, or a step to the next file. */
    method InitDataReader() returns (isExist: bool)
      requires Valid() && !isClose && idx < |files| && !isInitDataReader
      modifies this`idx, this`blockId, this`isInitDataReader, this`dataReader
      ensures Valid() && Remaining() == old(Remaining()) && isExist == isInitDataReader
      ensures isExist ==> dataReader != []
      ensures idx > old(idx)
           || (idx == old(idx) && Left(files, ascending, idx, blockId) < old(Left(files, ascending, idx, blockId)))
    {
      hide BlocksFrom, Rest, IsExist;
      var i := Visit(ascending, |files|, idx);
      var f := files[i];
      FileDone(files, tr, ascending, idx, blockId);
      if blockId >= |f.skips| {
        ResetIndex();
        return false;
      }
      if !IsExist(f, tr) {
        ResetIndex();
        return false;
      }
      var currBlocks, next := FillBatch(f, i, blockId);
      BatchTaken(files, tr, ascending, idx, blockId, next, currBlocks);
      blockId := next;
      if currBlocks == [] {
        return false;
      }
      dataReader := currBlocks;
      isInitDataReader := true;
      return true;
    }

    /** The next wanted block. */
    method Next() returns (r: Option<Delivered>)
      requires Valid()
      modifies this
      ensures Valid() && isClose == old(isClose)
      ensures r.None? ==> isClose || old(Remaining()) == []
      ensures r.Some? ==> !isClose && old(Remaining()) == [r.value] + Remaining()
    {
      hide Rest;
      while true
        invariant Valid() && isClose == old(isClose)
        invariant Remaining() == old(Remaining())
        decreases |files| - idx, Left(files, ascending, idx, blockId), isInitDataReader
      {
        if isClose {
          return None;
        }
        if idx >= |files| {
          NothingLeft(files, tr, ascending, idx, blockId);
          return None;
        }
        if !isInitDataReader {
          var isExist := InitDataReader();
          if !isExist {
            continue;
          }
        }
        if dataReader == [] {
          isInitDataReader := false;
          continue;
        }
        r := Some(dataReader[0]);
        dataReader := dataReader[1..];
        return;
      }
    }
  }

  /** All blocks a query gets: every wanted block of every overlapping file once, in order. */
  method ReadAll(files: seq<File>, tr: TimeRange, ascending: bool) returns (out: seq<Delivered>)
    ensures out == FilesFrom(files, tr, ascending, 0)
    ensures forall d :: Asked(files, tr, d) ==> d in out
    ensures ProperTimes(files, tr) ==> forall d :: d in out <==> Asked(files, tr, d)
  {
    hide FilesFrom, StreamDetachedReader.Remaining, StreamDetachedReader.Valid, Asked, ProperTimes;
    var reader := new StreamDetachedReader(files, tr, ascending);
    ghost var all := reader.Remaining();
    out := [];
    while true
      invariant reader.Valid() && !reader.isClose && out + reader.Remaining() == all
      decreases |all| - |out|
    {
      var r := reader.Next();
      if r.None? {
        AskedDelivered(files, tr, ascending);
        return;
      }
      out := out + [r.value];
    }
  }

  function Reverse(s: seq<Delivered>): seq<Delivered> {
    if s == [] then [] else [s[|s| - 1]] + Reverse(s[..|s| - 1])
  }

  lemma ReverseSnoc(s: seq<Delivered>, x: Delivered)
    ensures Reverse(s + [x]) == [x] + Reverse(s)
  {
    assert (s + [x])[..|s|] == s;
  }

  lemma {:induction false} ReverseConcat(a: seq<Delivered>, b: seq<Delivered>)
    ensures Reverse(a + b) == Reverse(b) + Reverse(a)
  {
    hide Reverse;
    NothingReversed();
    if b == [] {
      assert a + b == a;
    } else {
      var n := |b| - 1;
      var c := b[..n];
      ReverseConcat(a, c);
      ReverseSnoc(c, b[n]);
      ReverseSnoc(a + c, b[n]);
      assert c + [b[n]] == b && a + c + [b[n]] == a + b;
    }
  }

  /** The wanted ones of the first `m` blocks. */
  function BlocksTo(f: File, tr: TimeRange, i: nat, m: nat): seq<Delivered>
    requires m <= |f.skips|
  {
    if m == 0 then [] else BlocksTo(f, tr, i, m - 1) + (if Wanted(f, tr, m - 1) then [Delivered(i, m - 1)] else [])
  }

  lemma {:induction false} BlocksForward(f: File, tr: TimeRange, i: nat, k: nat)
    requires k <= |f.skips|
    ensures BlocksTo(f, tr, i, k) + BlocksFrom(f, tr, true, i, k) == BlocksTo(f, tr, i, |f.skips|)
    decreases |f.skips| - k
  {
    hide Wanted;
    if k < |f.skips| {
      BlocksForward(f, tr, i, k + 1);
      assert BlocksTo(f, tr, i, k) + BlocksFrom(f, tr, true, i, k)
          == BlocksTo(f, tr, i, k + 1) + BlocksFrom(f, tr, true, i, k + 1);
    }
  }

  lemma {:induction false} BlocksBackward(f: File, tr: TimeRange, i: nat, k: nat)
    requires k <= |f.skips|
    ensures BlocksFrom(f, tr, false, i, k) == Reverse(BlocksTo(f, tr, i, |f.skips| - k))
    decreases |f.skips| - k
  {
    hide Wanted, Reverse;
    NothingReversed();
    if k < |f.skips| {
      BlocksBackward(f, tr, i, k + 1);
      var m := |f.skips| - 1 - k;
      if Wanted(f, tr, m) {
        ReverseSnoc(BlocksTo(f, tr, i, m), Delivered(i, m));
      } else {
        assert BlocksTo(f, tr, i, m + 1) == BlocksTo(f, tr, i, m);
      }
    }
  }

  lemma NothingReversed()
    ensures Reverse([]) == []
  {
  }

  function FilesTo(files: seq<File>, tr: TimeRange, m: nat): seq<Delivered>
    requires m <= |files|
  {
    if m == 0 then [] else FilesTo(files, tr, m - 1) + OfFile(files[m - 1], tr, true, m - 1, 0)
  }

  lemma {:induction false} FilesBothWays(files: seq<File>, tr: TimeRange, k: nat)
    requires k <= |files|
    ensures FilesTo(files, tr, k) + FilesFrom(files, tr, true, k) == FilesTo(files, tr, |files|)
    ensures FilesFrom(files, tr, false, k) == Reverse(FilesTo(files, tr, |files| - k))
    decreases |files| - k
  {
    hide OfFile, Reverse;
    NothingReversed();
    if k < |files| {
      FilesBothWays(files, tr, k + 1);
      var m := |files| - 1 - k;
      FileBothWays(files[m], tr, m);
      ReverseConcat(FilesTo(files, tr, m), OfFile(files[m], tr, true, m, 0));
    }
  }

  lemma FileBothWays(f: File, tr: TimeRange, i: nat)
    ensures OfFile(f, tr, false, i, 0) == Reverse(OfFile(f, tr, true, i, 0))
  {
    hide BlocksFrom;
    BlocksForward(f, tr, i, 0);
    BlocksBackward(f, tr, i, 0);
    assert BlocksTo(f, tr, i, 0) + BlocksFrom(f, tr, true, i, 0) == BlocksFrom(f, tr, true, i, 0);
  }

  /** A descending query gets the same blocks in the reverse order. */
  lemma DescendingReverses(files: seq<File>, tr: TimeRange)
    ensures FilesFrom(files, tr, false, 0) == Reverse(FilesFrom(files, tr, true, 0))
  {
    hide OfFile, FilesFrom;
    FilesBothWays(files, tr, 0);
    assert FilesTo(files, tr, 0) + FilesFrom(files, tr, true, 0) == FilesFrom(files, tr, true, 0);
  }

  predicate Before(x: Delivered, y: Delivered) {
    x.file < y.file || (x.file == y.file && x.block < y.block)
  }

  /** The blocks of the first `m` files: exactly the wanted ones, strictly in order. */
  lemma {:induction false} InFilesTo(files: seq<File>, tr: TimeRange, m: nat)
    requires m <= |files|
    ensures forall d :: d in FilesTo(files, tr, m)
                   <==> d.file < m && d.block < |files[d.file].skips| && IsExist(files[d.file], tr)
                        && Wanted(files[d.file], tr, d.block)
    ensures forall p, q :: 0 <= p < q < |FilesTo(files, tr, m)| ==>
              Before(FilesTo(files, tr, m)[p], FilesTo(files, tr, m)[q])
  {
    hide BlocksFrom, BlocksTo, Wanted, IsExist;
    if m > 0 {
      InFilesTo(files, tr, m - 1);
      var f := files[m - 1];
      var before, own := FilesTo(files, tr, m - 1), OfFile(f, tr, true, m - 1, 0);
      InFile(f, tr, m - 1);
      forall p, q | 0 <= p < q < |before + own| ensures Before((before + own)[p], (before + own)[q]) {
        if p < |before| <= q {
          assert before[p] in before && own[q - |before|] in own;
        }
      }
    }
  }

  lemma InFile(f: File, tr: TimeRange, j: nat)
    ensures forall d :: d in OfFile(f, tr, true, j, 0)
                   <==> d.file == j && d.block < |f.skips| && IsExist(f, tr) && Wanted(f, tr, d.block)
    ensures forall p, q :: 0 <= p < q < |OfFile(f, tr, true, j, 0)| ==>
              Before(OfFile(f, tr, true, j, 0)[p], OfFile(f, tr, true, j, 0)[q])
  {
    hide BlocksFrom, BlocksTo, Wanted;
    NoBlocks(f, tr, j);
    BlocksForward(f, tr, j, 0);
    InBlocksTo(f, tr, j, |f.skips|);
    assert [] + BlocksFrom(f, tr, true, j, 0) == BlocksFrom(f, tr, true, j, 0);
  }

  lemma NoBlocks(f: File, tr: TimeRange, j: nat)
    ensures BlocksTo(f, tr, j, 0) == []
  {
  }

  lemma {:induction false} InBlocksTo(f: File, tr: TimeRange, j: nat, m: nat)
    requires m <= |f.skips|
    ensures forall d :: d in BlocksTo(f, tr, j, m) <==> d.file == j && d.block < m && Wanted(f, tr, d.block)
    ensures forall p, q :: 0 <= p < q < |BlocksTo(f, tr, j, m)| ==>
              Before(BlocksTo(f, tr, j, m)[p], BlocksTo(f, tr, j, m)[q])
  {
    hide Wanted;
    if m > 0 {
      InBlocksTo(f, tr, j, m - 1);
      var before := BlocksTo(f, tr, j, m - 1);
      forall p | 0 <= p < |before| ensures Before(before[p], Delivered(j, m - 1)) {
        assert before[p] in before;
      }
    }
  }

  /** An ascending query gets exactly the wanted blocks of the overlapping files, each
      once, by file and block. */
  lemma DeliveredExactly(files: seq<File>, tr: TimeRange)
    ensures forall d :: d in FilesFrom(files, tr, true, 0)
                   <==> d.file < |files| && d.block < |files[d.file].skips| && IsExist(files[d.file], tr)
                        && Wanted(files[d.file], tr, d.block)
    ensures forall p, q :: 0 <= p < q < |FilesFrom(files, tr, true, 0)| ==>
              Before(FilesFrom(files, tr, true, 0)[p], FilesFrom(files, tr, true, 0)[q])
  {
    hide OfFile, FilesFrom, Wanted, IsExist;
    FilesBothWays(files, tr, 0);
    InFilesTo(files, tr, |files|);
    assert FilesTo(files, tr, 0) + FilesFrom(files, tr, true, 0) == FilesFrom(files, tr, true, 0);
  }

  ghost predicate Within(t: int, lo: int, hi: int) {
    lo <= t <= hi
  }

  /** Some instant of the query is between `lo` and `hi`. */
  ghost predicate SharesTime(tr: TimeRange, lo: int, hi: int) {
    exists t :: Within(t, lo, hi) && Within(t, tr.min, tr.max)
  }

  /** Ranges that end after they begin. */
  ghost predicate ProperTimes(files: seq<File>, tr: TimeRange) {
    && tr.min <= tr.max
    && (forall i :: 0 <= i < |files| ==> files[i].minTime <= files[i].maxTime)
    && (forall i, b :: 0 <= i < |files| && 0 <= b < |files[i].skips| ==> files[i].times[b] <= files[i].times[b + 1])
  }

  /** The block shares an instant with the query, its file does too, and every skip index
      keeps it. */
  ghost predicate Asked(files: seq<File>, tr: TimeRange, d: Delivered) {
    && d.file < |files| && d.block < |files[d.file].skips|
    && var f := files[d.file];
       && SharesTime(tr, f.minTime, f.maxTime) && SharesTime(tr, f.times[d.block], f.times[d.block + 1])
       && forall j :: 0 <= j < |f.skips[d.block]| ==> f.skips[d.block][j]
  }

  lemma SharedOverlaps(tr: TimeRange, lo: int, hi: int)
    ensures SharesTime(tr, lo, hi) ==> tr.min <= hi && lo <= tr.max
    ensures lo <= hi && tr.min <= tr.max && tr.min <= hi && lo <= tr.max ==> SharesTime(tr, lo, hi)
  {
    if lo <= hi && tr.min <= tr.max && tr.min <= hi && lo <= tr.max {
      var t := if lo <= tr.min then tr.min else lo;
      assert Within(t, lo, hi) && Within(t, tr.min, tr.max);
    }
  }

  /** Every block that is asked for is delivered, and with proper times no other. */
  lemma DeliveredByTime(files: seq<File>, tr: TimeRange, d: Delivered)
    ensures Asked(files, tr, d) ==> d in FilesFrom(files, tr, true, 0)
    ensures ProperTimes(files, tr) ==> (d in FilesFrom(files, tr, true, 0) <==> Asked(files, tr, d))
  {
    hide FilesFrom, SharesTime;
    DeliveredExactly(files, tr);
    if d.file < |files| && d.block < |files[d.file].skips| {
      var f := files[d.file];
      SharedOverlaps(tr, f.minTime, f.maxTime);
      SharedOverlaps(tr, f.times[d.block], f.times[d.block + 1]);
    }
  }

  lemma {:induction false} ReverseMembers(xs: seq<Delivered>, d: Delivered)
    ensures d in Reverse(xs) <==> d in xs
  {
    if xs != [] {
      var n := |xs| - 1;
      ReverseMembers(xs[..n], d);
      assert xs == xs[..n] + [xs[n]];
    }
  }

  /** The same in either direction. */
  lemma AskedDelivered(files: seq<File>, tr: TimeRange, ascending: bool)
    ensures forall d :: Asked(files, tr, d) ==> d in FilesFrom(files, tr, ascending, 0)
    ensures ProperTimes(files, tr) ==> forall d :: d in FilesFrom(files, tr, ascending, 0) <==> Asked(files, tr, d)
  {
    hide FilesFrom, Asked, ProperTimes, Reverse;
    DescendingReverses(files, tr);
    forall d
      ensures Asked(files, tr, d) ==> d in FilesFrom(files, tr, ascending, 0)
      ensures ProperTimes(files, tr) ==> (d in FilesFrom(files, tr, ascending, 0) <==> Asked(files, tr, d))
    {
      DeliveredByTime(files, tr, d);
      ReverseMembers(FilesFrom(files, tr, true, 0), d);
    }
  }
}

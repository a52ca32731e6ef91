/**
  A whole down-sample task: aggregator and writer together. The time column of a series
  is written from its first field only; the other columns have its times exactly if all
  of them end at the same window and slip to the same window, if they slip at all.
 */
module DownSamplePipeline {
  import opened DownSampleWindows
  import opened AggregateCursor
  import opened DownSampleAggregator
  import opened DownSampleReader
  import opened ReadingOrder
  import opened DownSampleValues
  import opened DownSampleWriter

  /** One column per field for which something was sent. */
  function Filled(parts: seq<seq<OutRecord>>): seq<OutRecord> {
    if parts == [] then []
    else
      var chunks := parts[|parts| - 1];
      Filled(parts[..|parts| - 1]) + (if chunks == [] then [] else [OutRecord(chunks[0].key, RowsOf(chunks))])
  }

  /** Non-empty chunks with the key of their field, and every field once. */
  ghost predicate ByField(parts: seq<seq<OutRecord>>, keys: seq<Key>) {
    && |keys| == |parts|
    && (forall k, i :: 0 <= k < |parts| && 0 <= i < |parts[k]| ==> parts[k][i].key == keys[k])
    && (forall i, j :: 0 <= i < j < |keys| ==> keys[i] != keys[j])
  }

  lemma RunsSnoc(a: seq<OutRecord>, r: OutRecord)
    ensures Runs(a + [r]) == AddTo(Runs(a), r) && RowsOf(a + [r]) == RowsOf(a) + r.rows
  {
    hide AddTo;
    assert (a + [r])[..|a|] == a;
  }

  lemma {:induction false} RunsConcat(a: seq<OutRecord>, chunks: seq<OutRecord>, key: Key)
    requires chunks != [] && forall i :: 0 <= i < |chunks| ==> chunks[i].key == key
    requires Runs(a) == [] || Runs(a)[|Runs(a)| - 1].key != key
    ensures Runs(a + chunks) == Runs(a) + [OutRecord(key, RowsOf(chunks))]
  {
    hide Runs, RowsOf;
    var n := |chunks| - 1;
    var init, r := chunks[..n], chunks[n];
    assert a + chunks == a + init + [r] && chunks == init + [r];
    RunsSnoc(a + init, r);
    RunsSnoc(init, r);
    if n == 0 {
      assert a + init == a && init == [];
      NoRowsOf();
      assert [] + r.rows == r.rows;
    } else {
      RunsConcat(a, init, key);
    }
  }

  lemma NoRowsOf()
    ensures RowsOf([]) == []
  {
  }

  lemma {:induction false} FilledKeys(parts: seq<seq<OutRecord>>, keys: seq<Key>)
    requires ByField(parts, keys)
    ensures forall c :: c in Filled(parts) ==>
              exists k :: 0 <= k < |parts| && parts[k] != [] && c == OutRecord(keys[k], RowsOf(parts[k]))
  {
    if parts != [] {
      var n := |parts| - 1;
      Prefix(parts, keys, n);
      FilledKeys(parts[..n], keys[..n]);
      forall c | c in Filled(parts)
        ensures exists k :: 0 <= k < |parts| && parts[k] != [] && c == OutRecord(keys[k], RowsOf(parts[k]))
      {
        if c in Filled(parts[..n]) {
          var k :| 0 <= k < n && parts[..n][k] != [] && c == OutRecord(keys[..n][k], RowsOf(parts[..n][k]));
          assert parts[..n][k] == parts[k];
        } else {
          assert parts[n] != [] && c == OutRecord(keys[n], RowsOf(parts[n]));
        }
      }
    }
  }

  lemma Prefix(parts: seq<seq<OutRecord>>, keys: seq<Key>, n: nat)
    requires ByField(parts, keys) && n <= |parts|
    ensures ByField(parts[..n], keys[..n])
  {
    forall k, i | 0 <= k < n && 0 <= i < |parts[..n][k]| ensures parts[..n][k][i].key == keys[..n][k] {
      assert parts[k][i].key == keys[k];
    }
  }

  /** The writer sees exactly one run per field. */
  lemma {:induction false} RunsAreFields(parts: seq<seq<OutRecord>>, keys: seq<Key>)
    requires ByField(parts, keys)
    ensures Runs(Joined(parts)) == Filled(parts)
  {
    if parts != [] {
      var n := |parts| - 1;
      var init, chunks := parts[..n], parts[n];
      Prefix(parts, keys, n);
      RunsAreFields(init, keys[..n]);
      JoinedSnoc(init, chunks);
      assert init + [chunks] == parts;
      if chunks == [] {
        assert Joined(init) + chunks == Joined(init);
      } else {
        FilledKeys(init, keys[..n]);
        var runs := Runs(Joined(init));
        if runs != [] {
          assert runs[|runs| - 1] in Filled(init);
        }
        RunsConcat(Joined(init), chunks, keys[n]);
      }
    }
  }

  /** The column of a field: its windows up to the last one sent, and values in the
      windows due. */
  ghost predicate ColumnFor(w: Windowing, chunkSize: nat, shardStart: int, field: seq<SeriesRecord>, c: OutRecord) {
    Delivers(w, chunkSize, shardStart, field, c.rows) && c.key == field[0].key
  }

  ghost predicate ColumnsFor(w: Windowing, chunkSize: nat, shardStart: int, fields: seq<seq<SeriesRecord>>,
                             cols: seq<OutRecord>) {
    |cols| == |fields| && forall k :: 0 <= k < |cols| ==> ColumnFor(w, chunkSize, shardStart, fields[k], cols[k])
  }

  /** The fields for which a chunk is sent: those with a window due. */
  function Sending(w: Windowing, fields: seq<seq<SeriesRecord>>): seq<seq<SeriesRecord>> {
    if fields == [] then []
    else
      var n := |fields| - 1;
      Sending(w, fields[..n]) + (if Dues(w, fields[n]) == [] then [] else [fields[n]])
  }

  ghost predicate Complete(w: Windowing, chunkSize: nat, shardStart: int, fields: seq<seq<SeriesRecord>>) {
    forall k :: 0 <= k < |fields| && fields[k] != [] ==>
      Held(w, chunkSize, fields[k], |fields[k]|) > 0 && !Slips(w, chunkSize, shardStart, fields[k])
  }

  /** Two fields end at the same window and slip to the same one. */
  ghost predicate Together(w: Windowing, chunkSize: nat, shardStart: int, f: seq<SeriesRecord>, g: seq<SeriesRecord>)
    requires f != [] && g != []
  {
    && EndsAt(w, chunkSize, f) == EndsAt(w, chunkSize, g)
    && SlipsTo(w, chunkSize, shardStart, f) == SlipsTo(w, chunkSize, shardStart, g)
  }

  /** Neighbouring fields of one series end together. */
  ghost predicate SameEnds(w: Windowing, chunkSize: nat, shardStart: int, fields: seq<seq<SeriesRecord>>) {
    forall k ::
      0 < k < |fields| && fields[k - 1] != [] && fields[k] != []
      && SameSeries(fields[k - 1][0].key, fields[k][0].key) ==>
      Together(w, chunkSize, shardStart, fields[k - 1], fields[k])
  }

  ghost predicate ValidGroups(w: Windowing, shardStart: int, fields: seq<seq<SeriesRecord>>) {
    forall k :: 0 <= k < |fields| ==> fields[k] != [] && ValidGroup(w, shardStart, fields[k])
  }

  /** Every column of every series has the times of the time column. */
  ghost predicate AlignedBlock(b: Block) {
    forall k :: 0 <= k < |b.columns| ==> Times(b.columns[k].rows) == b.times
  }

  ghost predicate AlignedFiles(files: seq<File>) {
    forall i, j :: 0 <= i < |files| && 0 <= j < |files[i].blocks| ==> AlignedBlock(files[i].blocks[j])
  }

  /** Neighbouring columns of one series have the same times. */
  ghost predicate Even(cols: seq<OutRecord>) {
    forall k :: 0 < k < |cols| && SameSeries(cols[k - 1].key, cols[k].key) ==>
             Times(cols[k - 1].rows) == Times(cols[k].rows)
  }

  lemma EvenConcat(a: seq<OutRecord>, b: seq<OutRecord>)
    requires a == [] || b == [] || !SameSeries(a[|a| - 1].key, b[0].key)
    ensures Even(a + b) <==> Even(a) && Even(b)
  {
    hide Times;
    var c := a + b;
    assert forall k :: 0 <= k < |a| ==> c[k] == a[k];
    forall k | 0 <= k < |b| ensures b[k] == c[|a| + k] {
    }
    if Even(c) {
      forall k | 0 < k < |b| && SameSeries(b[k - 1].key, b[k].key) ensures Times(b[k - 1].rows) == Times(b[k].rows) {
        assert b[k - 1] == c[|a| + k - 1] && b[k] == c[|a| + k];
      }
    }
  }

  /** The columns of one series are even exactly if they all have the times of the first. */
  lemma {:induction false} EvenBlock(name: string, b: Block, n: nat)
    requires 0 < n <= |b.columns| && b.times == Times(b.columns[0].rows)
    ensures Even(ColumnsOf(name, b.sid, b.columns[..n])) <==> AlignedBlock(b.(columns := b.columns[..n]))
  {
    hide Times;
    var cols, cs := ColumnsOf(name, b.sid, b.columns[..n]), b.columns[..n];
    forall k | 0 <= k < n ensures cols[k].key == Key(name, b.sid, cs[k].field) && cols[k].rows == cs[k].rows {
    }
    if n > 1 {
      var init := b.columns[..n - 1];
      EvenBlock(name, b, n - 1);
      assert cs[..n - 1] == init && cols[..n - 1] == ColumnsOf(name, b.sid, init);
      EvenInit(cols);
      AlignedInit(b.(columns := cs));
      assert SameSeries(cols[n - 2].key, cols[n - 1].key);
    }
  }

  lemma EvenInit(cols: seq<OutRecord>)
    requires |cols| > 1
    ensures var n := |cols| - 1;
            Even(cols) <==> Even(cols[..n]) && (SameSeries(cols[n - 1].key, cols[n].key) ==>
                                                  Times(cols[n - 1].rows) == Times(cols[n].rows))
  {
    hide Times;
  }

  lemma AlignedInit(b: Block)
    requires b.columns != []
    ensures var n := |b.columns| - 1;
            AlignedBlock(b) <==> AlignedBlock(b.(columns := b.columns[..n])) && Times(b.columns[n].rows) == b.times
  {
    hide Times;
    var n := |b.columns| - 1;
    if AlignedBlock(b.(columns := b.columns[..n])) {
      forall k | 0 <= k < n ensures Times(b.columns[k].rows) == b.times {
        assert b.columns[..n][k] == b.columns[k];
      }
    }
  }

  ghost predicate AlignedBlocks(blocks: seq<Block>) {
    forall j :: 0 <= j < |blocks| ==> AlignedBlock(blocks[j])
  }

  ghost predicate TimedBlocks(blocks: seq<Block>) {
    forall j :: 0 <= j < |blocks| ==> blocks[j].columns != [] && blocks[j].times == Times(blocks[j].columns[0].rows)
  }

  lemma {:induction false} EvenBlocks(name: string, blocks: seq<Block>)
    requires TimedBlocks(blocks) && forall j :: 0 < j < |blocks| ==> blocks[j - 1].sid != blocks[j].sid
    ensures Even(BlockColumns(name, blocks)) <==> AlignedBlocks(blocks)
    ensures forall c :: c in BlockColumns(name, blocks) ==> c.key.file == name
    ensures blocks != [] ==>
              BlockColumns(name, blocks) != []
              && BlockColumns(name, blocks)[|BlockColumns(name, blocks)| - 1].key.sid == blocks[|blocks| - 1].sid
  {
    hide Times, Even, AlignedBlock;
    if blocks == [] {
      NothingEven();
    } else {
      var n := |blocks| - 1;
      var b := blocks[n];
      EvenBlocks(name, blocks[..n]);
      EvenBlock(name, b, |b.columns|);
      assert b.columns[..|b.columns|] == b.columns && b.(columns := b.columns) == b;
      EvenConcat(BlockColumns(name, blocks[..n]), ColumnsOf(name, b.sid, b.columns));
      assert AlignedBlocks(blocks) <==> AlignedBlocks(blocks[..n]) && AlignedBlock(b);
    }
  }

  lemma NothingEven()
    ensures Even([])
  {
  }

  /** The files are aligned exactly if neighbouring columns of a series have the same times. */
  lemma {:induction false} AlignedExactly(files: seq<File>)
    requires TimedByFirst(files) && Parted(files)
    ensures AlignedFiles(files) <==> Even(FileColumns(files))
    ensures files != [] ==>
              FileColumns(files) != []
              && FileColumns(files)[|FileColumns(files)| - 1].key.file == files[|files| - 1].name
  {
    hide Times, Even, AlignedBlock, PartedColumns;
    if files == [] {
      NothingEven();
    } else {
      var n := |files| - 1;
      var f := files[n];
      AlignedExactly(files[..n]);
      forall j | 0 <= j < |f.blocks|
        ensures f.blocks[j].columns != [] && f.blocks[j].times == Times(f.blocks[j].columns[0].rows)
      {
        assert files[n].blocks[j] == f.blocks[j];
      }
      EvenBlocks(f.name, f.blocks);
      var cols := BlockColumns(f.name, f.blocks);
      assert cols[0] in cols && cols[|cols| - 1] in cols;
      EvenConcat(FileColumns(files[..n]), cols);
      AlignedFile(files);
    }
  }

  lemma AlignedFile(files: seq<File>)
    requires files != []
    ensures AlignedFiles(files) <==> AlignedFiles(files[..|files| - 1]) && AlignedBlocks(files[|files| - 1].blocks)
  {
    hide AlignedBlock;
    var n := |files| - 1;
    if AlignedFiles(files[..n]) && AlignedBlocks(files[n].blocks) {
      forall i, j | 0 <= i < |files| && 0 <= j < |files[i].blocks| ensures AlignedBlock(files[i].blocks[j]) {
        assert i < n ==> files[..n][i] == files[i];
      }
    }
    if AlignedFiles(files) {
      forall i, j | 0 <= i < n && 0 <= j < |files[..n][i].blocks| ensures AlignedBlock(files[..n][i].blocks[j]) {
        assert files[..n][i] == files[i];
      }
    }
  }

  /** Columns that slip to the same window tell where they end. */
  lemma CutsTell(w: Windowing, shardStart: int, first: int, to: int, a: int, b: int)
    requires first == Start(w, first) <= a == Start(w, a) < b == Start(w, b) && shardStart < first + w.interval
    requires to == first + w.interval || (first + w.interval < to == Start(w, to) <= a)
    ensures ColumnTimes(w, shardStart, first, to, a) != ColumnTimes(w, shardStart, first, to, b)
  {
    hide Start, Dense, ColumnTimes;
    StartsApart(w, a, b);
    ColumnOn(w, shardStart, first, to, a, b);
    DenseHead(w, a + w.interval, b);
  }

  lemma {:induction false} LaterMoved(w: Windowing, from: int, j: nat)
    requires Moved(w, from)
    ensures Moved(w, Later(w, from, j))
  {
    hide Start;
    if j > 0 {
      LaterMoved(w, from, j - 1);
      StartShift(w, Later(w, from, j - 1));
    }
  }

  lemma {:induction false} DenseAtLeast(w: Windowing, a: int, b: int)
    ensures forall t :: t in Dense(w, a, b) ==> a <= t
    decreases b - a
  {
    if a <= b {
      DenseAtLeast(w, a + w.interval, b);
    }
  }

  /** Columns tell where they slip to: the rows before are not at the start of a window. */
  lemma SlipsDiffer(w: Windowing, shardStart: int, first: int, to: int, till: int, to1: int, till1: int)
    requires first == Start(w, first) < shardStart < first + w.interval < to == Start(w, to) < to1 && to <= till
    ensures ColumnTimes(w, shardStart, first, to, till) != ColumnTimes(w, shardStart, first, to1, till1)
  {
    hide Start, Dense;
    StartUnique(w, shardStart, first, first);
    DenseHead(w, to, till);
    DenseAtLeast(w, to1, till1);
    var times, lead := ColumnTimes(w, shardStart, first, to, till), Lead(w, shardStart, to);
    assert times[|[shardStart] + lead|] == to;
    forall k | 0 <= k < |Lead(w, shardStart, to1)| ensures Lead(w, shardStart, to1)[k] != to {
      LaterMoved(w, shardStart, k + 1);
    }
    assert to !in ColumnTimes(w, shardStart, first, to1, till1);
  }

  lemma ColumnsTell(w: Windowing, chunkSize: nat, shardStart: int, f: seq<SeriesRecord>, g: seq<SeriesRecord>,
                    c: OutRecord, d: OutRecord)
    requires ColumnFor(w, chunkSize, shardStart, f, c) && ColumnFor(w, chunkSize, shardStart, g, d)
    requires ValidGroup(w, shardStart, f) && ValidGroup(w, shardStart, g)
    requires f[0].trMin == g[0].trMin && Dues(w, f) != [] && Dues(w, g) != []
    ensures Times(c.rows) == Times(d.rows) <==> Together(w, chunkSize, shardStart, f, g)
  {
    hide Start, Times, ValueStarts, Dues, Held, EndsAt, ColumnTimes, SlipsTo, Slips, ValidGroup, CoveredTill, Covered;
    var first, a, b := Start(w, f[0].trMin), EndsAt(w, chunkSize, f), EndsAt(w, chunkSize, g);
    StartShift(w, f[0].trMin);
    SlipFacts(w, chunkSize, shardStart, f);
    SlipFacts(w, chunkSize, shardStart, g);
    AllAfter(w, shardStart, f);
    SentSomething(w, shardStart, first, SlipsTo(w, chunkSize, shardStart, f), a, c.rows);
    SentSomething(w, shardStart, first, SlipsTo(w, chunkSize, shardStart, g), b, d.rows);
    TimesTell(w, shardStart, first, SlipsTo(w, chunkSize, shardStart, f), a, SlipsTo(w, chunkSize, shardStart, g), b);
  }

  /** A column slips to a window further off than the second, or it does not slip. */
  ghost predicate SlipOk(w: Windowing, shardStart: int, first: int, to: int, till: int) {
    to == first + w.interval || first < shardStart < first + w.interval < to == Start(w, to) <= till
  }

  lemma TimesTell(w: Windowing, shardStart: int, first: int, to: int, till: int, to1: int, till1: int)
    requires first == Start(w, first) <= till == Start(w, till) && first <= till1 == Start(w, till1)
          && shardStart < first + w.interval
    requires SlipOk(w, shardStart, first, to, till) && SlipOk(w, shardStart, first, to1, till1)
    ensures ColumnTimes(w, shardStart, first, to, till) == ColumnTimes(w, shardStart, first, to1, till1)
       <==> to == to1 && till == till1
  {
    hide Start, ColumnTimes, Clamp, Dense;
    var second := first + w.interval;
    if to == to1 {
      if till < till1 {
        CutsTell(w, shardStart, first, to, till, till1);
      } else if till1 < till {
        CutsTell(w, shardStart, first, to, till1, till);
      }
    } else if to == second {
      ColumnUnbroken(w, shardStart, first, till);
      SlipTells(w, shardStart, first, to1, till1, till);
    } else if to1 == second {
      ColumnUnbroken(w, shardStart, first, till1);
      SlipTells(w, shardStart, first, to, till, till1);
    } else if to < to1 {
      SlipsDiffer(w, shardStart, first, to, till, to1, till1);
    } else {
      SlipsDiffer(w, shardStart, first, to1, till1, to, till);
    }
  }

  lemma SentSomething(w: Windowing, shardStart: int, first: int, to: int, till: int, rows: seq<Row>)
    requires rows != [] && Times(rows) == ColumnTimes(w, shardStart, first, to, till)
          && SlipOk(w, shardStart, first, to, till)
    ensures first <= till
  {
    hide Dense, Times, Lead, Start;
    TimesLength(rows);
    DenseHead(w, first, till);
  }

  lemma EvenIsSameEnds(w: Windowing, chunkSize: nat, shardStart: int, fields: seq<seq<SeriesRecord>>,
                       cols: seq<OutRecord>)
    requires ColumnsFor(w, chunkSize, shardStart, fields, cols) && SameRange(fields)
          && ValidGroups(w, shardStart, fields)
    requires forall k :: 0 <= k < |fields| ==> Dues(w, fields[k]) != []
    ensures Even(cols) <==> SameEnds(w, chunkSize, shardStart, fields)
  {
    hide Times, Dues, Together, Delivers, ValidGroup;
    forall k | 0 < k < |cols| && SameSeries(cols[k - 1].key, cols[k].key)
      ensures fields[k - 1] != [] && fields[k] != [] && SameSeries(fields[k - 1][0].key, fields[k][0].key)
      ensures Times(cols[k - 1].rows) == Times(cols[k].rows)
         <==> Together(w, chunkSize, shardStart, fields[k - 1], fields[k])
    {
      var f, g := fields[k - 1], fields[k];
      assert ColumnFor(w, chunkSize, shardStart, f, cols[k - 1]) && ColumnFor(w, chunkSize, shardStart, g, cols[k]);
      ColumnsTell(w, chunkSize, shardStart, f, g, cols[k - 1], cols[k]);
    }
    forall k | 0 < k < |fields| && fields[k - 1] != [] && fields[k] != []
        && SameSeries(fields[k - 1][0].key, fields[k][0].key)
      ensures SameSeries(cols[k - 1].key, cols[k].key)
    {
      assert ColumnFor(w, chunkSize, shardStart, fields[k - 1], cols[k - 1])
          && ColumnFor(w, chunkSize, shardStart, fields[k], cols[k]);
    }
  }

  /** Every column has the times of the time column exactly if the fields of a series
      end together. */
  lemma AlignedColumns(w: Windowing, chunkSize: nat, shardStart: int, fields: seq<seq<SeriesRecord>>, files: seq<File>)
    requires TimedByFirst(files) && Parted(files) && SameRange(fields) && ValidGroups(w, shardStart, fields)
    requires ColumnsFor(w, chunkSize, shardStart, Sending(w, fields), FileColumns(files))
    ensures AlignedFiles(files) <==> SameEnds(w, chunkSize, shardStart, Sending(w, fields))
  {
    hide FileColumns, TimedByFirst, Parted, ColumnsFor, SameRange, Even, AlignedFiles, SameEnds, Sending, ValidGroup,
      Dues;
    SendingIn(w, fields);
    SendingRange(w, fields);
    AlignedExactly(files);
    EvenIsSameEnds(w, chunkSize, shardStart, Sending(w, fields), FileColumns(files));
  }

  lemma {:induction false} SendingIn(w: Windowing, fields: seq<seq<SeriesRecord>>)
    ensures forall k :: 0 <= k < |Sending(w, fields)| ==>
              Sending(w, fields)[k] in fields && Dues(w, Sending(w, fields)[k]) != []
  {
    hide Dues;
    if fields != [] {
      SendingIn(w, fields[..|fields| - 1]);
    }
  }

  lemma SendingRange(w: Windowing, fields: seq<seq<SeriesRecord>>)
    requires SameRange(fields)
    ensures SameRange(Sending(w, fields))
  {
    hide Sending, Dues;
    SendingIn(w, fields);
  }

  lemma {:induction false} SendingAll(w: Windowing, fields: seq<seq<SeriesRecord>>)
    requires forall k :: 0 <= k < |fields| ==> Dues(w, fields[k]) != []
    ensures Sending(w, fields) == fields
  {
    hide Dues;
    if fields != [] {
      var n := |fields| - 1;
      SendingAll(w, fields[..n]);
      assert fields[..n] + [fields[n]] == fields;
    }
  }

  /** If every field is sent to its end, all have a column and end together. */
  lemma CompleteEnds(w: Windowing, chunkSize: nat, shardStart: int, fields: seq<seq<SeriesRecord>>,
                     parts: seq<seq<OutRecord>>)
    requires Complete(w, chunkSize, shardStart, fields) && SameRange(fields)
          && Sent(w, chunkSize, shardStart, fields, parts)
    requires ValidGroups(w, shardStart, fields)
    ensures Sending(w, fields) == fields && SameEnds(w, chunkSize, shardStart, fields)
  {
    hide Times, Held, Covered, CoveredTill, ValueStarts, Dues, Sending, Start, Slips, SlipsTo, ColumnTimes, ValidGroup;
    forall k | 0 <= k < |fields|
      ensures fields[k] != [] && Dues(w, fields[k]) != []
           && EndsAt(w, chunkSize, fields[k]) == Start(w, fields[k][0].trMax)
      ensures SlipsTo(w, chunkSize, shardStart, fields[k]) == Start(w, fields[k][0].trMin) + w.interval
    {
      assert SentFor(w, chunkSize, shardStart, fields[k], parts[k]);
      CoveredSomething(w, shardStart, fields[k][0]);
      SlipFacts(w, chunkSize, shardStart, fields[k]);
    }
    SendingAll(w, fields);
  }

  /** All fields of one series end together. */
  ghost predicate EndTogether(w: Windowing, chunkSize: nat, shardStart: int, fields: seq<seq<SeriesRecord>>) {
    forall i, j ::
      0 <= i < j < |fields| && fields[i] != [] && fields[j] != [] && SameSeries(fields[i][0].key, fields[j][0].key) ==>
      Together(w, chunkSize, shardStart, fields[i], fields[j])
  }

  lemma {:induction false} NeighboursReach(w: Windowing, chunkSize: nat, shardStart: int,
                                           fields: seq<seq<SeriesRecord>>, i: nat, j: nat)
    requires Contiguous(fields) && SameEnds(w, chunkSize, shardStart, fields) && forall k :: 0 <= k < |fields| ==>
               fields[k] != []
    requires i <= j < |fields| && SameSeries(fields[i][0].key, fields[j][0].key)
    ensures Together(w, chunkSize, shardStart, fields[i], fields[j])
    decreases j - i
  {
    hide EndsAt, SlipsTo;
    if i < j {
      assert i < j - 1 ==> SameSeries(fields[i][0].key, fields[j - 1][0].key);
      NeighboursReach(w, chunkSize, shardStart, fields, i, j - 1);
    }
  }

  /** The places of the fields for which a chunk is sent. */
  ghost function Places(w: Windowing, fields: seq<seq<SeriesRecord>>): seq<nat> {
    if fields == [] then []
    else
      var n := |fields| - 1;
      Places(w, fields[..n]) + (if Dues(w, fields[n]) == [] then [] else [n])
  }

  lemma {:induction false} SendingPlaces(w: Windowing, fields: seq<seq<SeriesRecord>>)
    ensures |Places(w, fields)| == |Sending(w, fields)|
    ensures forall k :: 0 <= k < |Sending(w, fields)| ==>
              Places(w, fields)[k] < |fields| && Sending(w, fields)[k] == fields[Places(w, fields)[k]]
    ensures forall i, j :: 0 <= i < j < |Places(w, fields)| ==> Places(w, fields)[i] < Places(w, fields)[j]
  {
    hide Dues;
    if fields != [] {
      SendingPlaces(w, fields[..|fields| - 1]);
    }
  }

  lemma SendingContiguous(w: Windowing, fields: seq<seq<SeriesRecord>>)
    requires Contiguous(fields)
    ensures Contiguous(Sending(w, fields))
  {
    hide Sending, Places;
    SendingPlaces(w, fields);
    var sending: seq<seq<SeriesRecord>> := Sending(w, fields);
    var places := Places(w, fields);
    forall i, j, k | 0 <= i < j < k < |sending| && sending[i] != [] && sending[j] != [] && sending[k] != []
      ensures SameSeries(sending[i][0].key, sending[k][0].key) ==> SameSeries(sending[i][0].key, sending[j][0].key)
    {
      assert fields[places[i]] == sending[i] && fields[places[j]] == sending[j] && fields[places[k]] == sending[k];
    }
  }

  lemma SeriesEnds(w: Windowing, chunkSize: nat, shardStart: int, fields: seq<seq<SeriesRecord>>)
    requires Contiguous(fields) && forall k :: 0 <= k < |fields| ==> fields[k] != []
    ensures SameEnds(w, chunkSize, shardStart, Sending(w, fields))
       <==> EndTogether(w, chunkSize, shardStart, Sending(w, fields))
  {
    hide Sending, Contiguous, Together, Dues;
    var sending: seq<seq<SeriesRecord>> := Sending(w, fields);
    SendingIn(w, fields);
    SendingContiguous(w, fields);
    if SameEnds(w, chunkSize, shardStart, sending) {
      forall i, j | 0 <= i < j < |sending| && SameSeries(sending[i][0].key, sending[j][0].key)
        ensures Together(w, chunkSize, shardStart, sending[i], sending[j])
      {
        NeighboursReach(w, chunkSize, shardStart, sending, i, j);
      }
    }
  }

  lemma {:induction false} JoinedIn(parts: seq<seq<OutRecord>>)
    ensures forall r :: r in Joined(parts) ==> exists k :: 0 <= k < |parts| && r in parts[k]
  {
    if parts != [] {
      JoinedIn(parts[1..]);
      forall r | r in Joined(parts) ensures exists k :: 0 <= k < |parts| && r in parts[k] {
        if r in parts[0] {
        } else {
          assert r in Joined(parts[1..]);
          var k :| 0 <= k < |parts[1..]| && r in parts[1..][k];
          assert r in parts[k + 1];
        }
      }
    }
  }

  ghost predicate Sent(w: Windowing, chunkSize: nat, shardStart: int, fields: seq<seq<SeriesRecord>>,
                       parts: seq<seq<OutRecord>>) {
    && |parts| == |fields|
    && (forall k :: 0 <= k < |fields| ==> SentFor(w, chunkSize, shardStart, fields[k], parts[k]))
    && (forall k :: 0 <= k < |fields| ==> fields[k][0].key.sid != 0 && fields[k][0].trMin <= fields[k][0].trMax)
    && (forall i, j :: 0 <= i < j < |fields| ==> fields[i][0].key != fields[j][0].key)
  }

  lemma SentRecords(w: Windowing, chunkSize: nat, shardStart: int, fields: seq<seq<SeriesRecord>>,
                    parts: seq<seq<OutRecord>>)
    requires Sent(w, chunkSize, shardStart, fields, parts)
    ensures ValidRecs(Joined(parts))
  {
    hide Times, Held, Covered, ValueStarts, Dues, Delivers;
    JoinedIn(parts);
    var recs := Joined(parts);
    forall i | 0 <= i < |recs| ensures recs[i].rows != [] && recs[i].key.sid != 0 {
      assert recs[i] in recs;
      var k :| 0 <= k < |parts| && recs[i] in parts[k];
      var m :| 0 <= m < |parts[k]| && parts[k][m] == recs[i];
      assert SentFor(w, chunkSize, shardStart, fields[k], parts[k]);
    }
  }

  /** One column for each field for which something was sent, and it is the one due. */
  lemma SentColumns(w: Windowing, chunkSize: nat, shardStart: int, fields: seq<seq<SeriesRecord>>,
                    parts: seq<seq<OutRecord>>)
    requires Sent(w, chunkSize, shardStart, fields, parts)
    ensures ColumnsFor(w, chunkSize, shardStart, Sending(w, fields), Runs(Joined(parts)))
  {
    hide Times, Delivers, Dues, Runs, Joined, ColumnsFor, Sending;
    var keys := seq(|fields|, k requires 0 <= k < |fields| =>
                      assert SentFor(w, chunkSize, shardStart, fields[k], parts[k]); fields[k][0].key);
    forall k, i | 0 <= k < |parts| && 0 <= i < |parts[k]| ensures parts[k][i].key == keys[k] {
      assert SentFor(w, chunkSize, shardStart, fields[k], parts[k]);
    }
    RunsAreFields(parts, keys);
    FilledSending(w, chunkSize, shardStart, fields, parts);
  }

  lemma {:induction false} FilledSending(w: Windowing, chunkSize: nat, shardStart: int, fields: seq<seq<SeriesRecord>>,
                                         parts: seq<seq<OutRecord>>)
    requires |parts| == |fields| && forall k :: 0 <= k < |fields| ==>
               SentFor(w, chunkSize, shardStart, fields[k], parts[k])
    ensures ColumnsFor(w, chunkSize, shardStart, Sending(w, fields), Filled(parts))
  {
    hide Delivers, Dues, RowsOf;
    if fields != [] {
      var n := |fields| - 1;
      FilledSending(w, chunkSize, shardStart, fields[..n], parts[..n]);
      assert SentFor(w, chunkSize, shardStart, fields[n], parts[n]);
    }
  }

  lemma CoveredSomething(w: Windowing, shardStart: int, rec: SeriesRecord)
    requires rec.trMin <= rec.trMax
    ensures Covered(w, shardStart, rec) != [] && Times(RowsOf([])) == []
  {
    hide Start;
    StartsApart(w, rec.trMin, rec.trMax);
  }

  lemma InputIsSent(w: Windowing, chunkSize: nat, shardStart: int, fields: seq<seq<SeriesRecord>>,
                    parts: seq<seq<OutRecord>>)
    requires ValidInput(w, chunkSize, shardStart, fields) && |parts| == |fields|
    requires forall k :: 0 <= k < |fields| ==> SentFor(w, chunkSize, shardStart, fields[k], parts[k])
    requires forall k :: 0 <= k < |fields| ==> fields[k] != [] && fields[k][0].key.sid != 0
    ensures Sent(w, chunkSize, shardStart, fields, parts) && ValidGroups(w, shardStart, fields)
  {
    hide Start, SentFor;
    forall k | 0 <= k < |fields| ensures fields[k][0].trMin <= fields[k][0].trMax {
      assert fields[k][0].rows != [];
      assert fields[k][0].trMin <= fields[k][0].rows[0].time <= fields[k][0].trMax;
    }
  }

  /** Every column has a value exactly in the windows in which its field has one, apart from
      those lost. */
  ghost predicate ValuedFor(w: Windowing, fields: seq<seq<SeriesRecord>>, cols: seq<OutRecord>) {
    |cols| == |fields| && forall k :: 0 <= k < |cols| ==> ValuesRight(w, fields[k], cols[k].rows)
  }

  lemma ColumnsValued(w: Windowing, chunkSize: nat, shardStart: int, fields: seq<seq<SeriesRecord>>,
                      cols: seq<OutRecord>)
    requires ColumnsFor(w, chunkSize, shardStart, Sending(w, fields), cols) && ValidGroups(w, shardStart, fields)
    ensures ValuedFor(w, Sending(w, fields), cols)
  {
    hide Delivers, ValuesRight, Sending, ValidGroup, Dues;
    SendingIn(w, fields);
    var sending: seq<seq<SeriesRecord>> := Sending(w, fields);
    forall k | 0 <= k < |cols| ensures ValuesRight(w, sending[k], cols[k].rows) {
      assert ColumnFor(w, chunkSize, shardStart, sending[k], cols[k]) && sending[k] in fields;
      DeliversValues(w, chunkSize, shardStart, sending[k], cols[k].rows);
    }
  }

  /** A field gets a column exactly if one of its windows is sent with a value. */
  lemma {:induction false} SendingMeans(w: Windowing, shardStart: int, fields: seq<seq<SeriesRecord>>,
                                        f: seq<SeriesRecord>)
    requires ValidGroups(w, shardStart, fields)
    ensures f in Sending(w, fields) <==> f in fields && exists s :: HasValue(w, f, s) && !Lost(w, f, s)
  {
    hide Dues, HasValue, Lost, ValidGroup;
    if fields != [] {
      var n := |fields| - 1;
      SendingMeans(w, shardStart, fields[..n], f);
      SendsSomething(w, shardStart, fields[n]);
      assert fields == fields[..n] + [fields[n]];
    }
  }

  lemma SendsSomething(w: Windowing, shardStart: int, f: seq<SeriesRecord>)
    requires ValidGroup(w, shardStart, f)
    ensures Dues(w, f) != [] <==> exists s :: HasValue(w, f, s) && !Lost(w, f, s)
  {
    hide Dues, HasValue, Lost, ValidGroup;
    if Dues(w, f) != [] {
      DuesOnRows(w, shardStart, f, Dues(w, f)[0]);
    }
    if s :| HasValue(w, f, s) && !Lost(w, f, s) {
      DuesOnRows(w, shardStart, f, s);
    }
  }

  /** A task over the segments of `fields`. */
  method DownSample(w: Windowing, chunkSize: nat, shardStart: int, input: seq<SeriesRecord>,
                    ghost fields: seq<seq<SeriesRecord>>)
    returns (files: seq<File>)
    requires input == Joined(fields) && ValidInput(w, chunkSize, shardStart, fields) && SameRange(fields)
          && Contiguous(fields)
    requires forall k :: 0 <= k < |fields| ==> fields[k] != [] && fields[k][0].key.sid != 0
    ensures TimedByFirst(files) && Parted(files)
    ensures ColumnsFor(w, chunkSize, shardStart, Sending(w, fields), FileColumns(files))
    ensures ValuedFor(w, Sending(w, fields), FileColumns(files))
    ensures AlignedFiles(files) <==> EndTogether(w, chunkSize, shardStart, Sending(w, fields))
    ensures Complete(w, chunkSize, shardStart, fields) ==>
      AlignedFiles(files) && ColumnsFor(w, chunkSize, shardStart, fields, FileColumns(files))
  {
    hide Start, TimedByFirst, Parted, FileColumns, Runs, SentFor, ValidInput, SameRange, Complete, AlignedFiles,
      ColumnsFor, Sent, Joined,
      ValidRecs, Sending, SameEnds, EndTogether, Contiguous, ValidGroups, ValuedFor;
    var aggregator := new FileSequenceAggregator(w, chunkSize, shardStart, input);
    ghost var parts := aggregator.Aggregate(fields);
    InputIsSent(w, chunkSize, shardStart, fields, parts);
    SentRecords(w, chunkSize, shardStart, fields, parts);
    SentColumns(w, chunkSize, shardStart, fields, parts);
    var writer := new WriteIntoStorage();
    writer.Work(aggregator.output);
    files := writer.newFiles;
    AlignedColumns(w, chunkSize, shardStart, fields, files);
    ColumnsValued(w, chunkSize, shardStart, fields, FileColumns(files));
    SeriesEnds(w, chunkSize, shardStart, fields);
    if Complete(w, chunkSize, shardStart, fields) {
      CompleteEnds(w, chunkSize, shardStart, fields, parts);
    }
  }

  lemma TidyInput(w: Windowing, chunkSize: nat, shardStart: int, fields: seq<seq<SeriesRecord>>)
    requires Tidy(fields) && chunkSize > 0 && forall k :: 0 <= k < |fields| ==> ValidGroup(w, shardStart, fields[k])
    ensures ValidInput(w, chunkSize, shardStart, fields) && SameRange(fields) && Contiguous(fields)
    ensures forall k :: 0 <= k < |fields| ==> fields[k] != [] && fields[k][0].key.sid != 0
  {
    hide ValidGroup, SameRange, Contiguous;
  }

  /** Reader, aggregator and writer over the files of a shard, for every choice of distinct
      files, series and fields. */
  method DownSampleFiles(w: Windowing, chunkSize: nat, shardStart: int, names: seq<string>, files: seq<TsspFile>)
    returns (newFiles: seq<File>)
    requires names != [] && Distinct(names) && ValidFiles(names, files) && DistinctSeries(files) && chunkSize > 0
    requires var fields := NonEmpty(AllFields(names, files));
             forall k :: 0 <= k < |fields| ==> ValidGroup(w, shardStart, fields[k])
    ensures TimedByFirst(newFiles) && Parted(newFiles)
    ensures var fields := NonEmpty(AllFields(names, files));
            && ColumnsFor(w, chunkSize, shardStart, Sending(w, fields), FileColumns(newFiles))
            && ValuedFor(w, Sending(w, fields), FileColumns(newFiles))
            && (AlignedFiles(newFiles) <==> EndTogether(w, chunkSize, shardStart, Sending(w, fields)))
            && (Complete(w, chunkSize, shardStart, fields) ==>
                  AlignedFiles(newFiles) && ColumnsFor(w, chunkSize, shardStart, fields, FileColumns(newFiles)))
  {
    hide TimedByFirst, Parted, FileColumns, ValidInput, SameRange, Complete, AlignedFiles, ColumnsFor, Joined,
      AllFields, ValidFiles, NonEmpty,
      Sending, EndTogether, Contiguous, Tidy, Distinct, DistinctSeries, OfFiles, ValidGroup, ValuedFor;
    ghost var fields: seq<seq<SeriesRecord>> := NonEmpty(AllFields(names, files));
    var records := Read(names, files);
    NonEmptyJoined(AllFields(names, files));
    AllTidy(names, files);
    TidyInput(w, chunkSize, shardStart, fields);
    newFiles := DownSample(w, chunkSize, shardStart, records, fields);
  }

  function Segment(field: string, rows: seq<RawRow>): SeriesRecord {
    SeriesRecord(Key("file", 1, field), 0, 20, rows)
  }

  lemma KickTwo(a: RawRow, b: RawRow)
    ensures Kick([a]) == (if a.isNil then [] else [a.time])
    ensures Kick([a, b]) == Kick([a]) + (if b.isNil then [] else [b.time])
  {
    assert [a][..0] == [] && [a, b][..1] == [a];
  }

  lemma Tens(w: Windowing)
    requires w == Windowing(10, 0)
    ensures Start(w, 0) == 0 && Start(w, 5) == 0 && Start(w, 10) == 10 && Start(w, 20) == 20
  {
    assert Start(w, 0) == 0;
    hide Start;
    StartShift(w, 0);
    StartShift(w, 10);
    StartUnique(w, 5, 0, 0);
  }

  lemma WindowsTwo(w: Windowing, t: int, u: int)
    requires Start(w, t) < Start(w, u)
    ensures WindowsOf(w, [t]) == [Start(w, t)] && WindowsOf(w, [u]) == [Start(w, u)]
         && WindowsOf(w, [t, u]) == [Start(w, t), Start(w, u)]
  {
    hide Start;
    assert [t][..0] == [] && [u][..0] == [] && [t, u][..1] == [t];
  }

  ghost predicate InOrder(a: seq<RawRow>, b: seq<RawRow>) {
    && 0 < |a| <= 2 && 0 < |b| <= 2 && a[0].time >= 0 && b[|b| - 1].time <= 20
    && (|a| == 2 ==> a[0].time < a[1].time) && a[|a| - 1].time < b[0].time && (|b| == 2 ==> b[0].time < b[1].time)
  }

  lemma ValidTwo(w: Windowing, field: string, a: seq<RawRow>, b: seq<RawRow>)
    requires InOrder(a, b)
    ensures ValidGroup(w, 0, [Segment(field, a), Segment(field, b)])
  {
  }

  /** A last segment without a value leaves the column short if a full chunk was sent
      before it: nothing is left to send after it. */
  lemma NilSegmentCutsColumn(w: Windowing, chunkSize: nat, g: seq<SeriesRecord>)
    requires |g| == 2 && Kick(g[0].rows) != [] && Kick(g[1].rows) == [] && !GoesOnAfter(w, g, 0)
    requires 0 < chunkSize <= |WindowsOf(w, Kick(g[0].rows))|
    ensures Held(w, chunkSize, g, 2) == 0
  {
    hide Start, Kick;
    assert Held(w, chunkSize, g, 1) == |WindowsOf(w, Kick(g[0].rows))|;
  }

  /** A window is sent without a value although the field has one in it, if the next
      segment reaches into the window but only with nil rows. */
  lemma NilRowLosesValue(w: Windowing, g: seq<SeriesRecord>, t: int, u: int)
    requires |g| == 2 && GoesOnAfter(w, g, 0) && Kick(g[0].rows) == [t] && Kick(g[1].rows) == [u]
          && Start(w, t) < Start(w, u)
    ensures HeldInVain(w, g, 0) && Dues(w, g) == [Start(w, u)] && WindowsOf(w, Values(g)) == [Start(w, t), Start(w, u)]
  {
    hide Start, Kick;
    assert g[1..] == [g[1]] && g[1..][1..] == [];
    assert Values(g[1..]) == [u] + Values([]);
    assert Values(g) == [t, u];
    WindowsTwo(w, t, u);
    assert [u][..0] == [];
    assert Dues(w, g[1..]) == [Start(w, u)] + Dues(w, []);
  }

  /** Two fields with values at 0 and 10, but at 20 only in the first: the second one
      ends earlier, so its column does not have the times of the time column. */
  lemma SomeColumnIsCut(w: Windowing, chunkSize: nat, first: seq<RawRow>, second: seq<RawRow>, third: seq<RawRow>)
    requires w == Windowing(10, 0) && chunkSize == 2
    requires first == [RawRow(0, false), RawRow(10, false)] && second == [RawRow(20, false)]
          && third == [RawRow(20, true)]
    ensures var fields := [[Segment("a", first), Segment("a", second)], [Segment("b", first), Segment("b", third)]];
            && ValidInput(w, chunkSize, 0, fields) && SameRange(fields) && Contiguous(fields)
            && !EndTogether(w, chunkSize, 0, Sending(w, fields))
  {
    hide ValidGroup, Kick, WindowsOf, Held, Start, Dues, EndsAt, Sending;
    var a, b := [Segment("a", first), Segment("a", second)], [Segment("b", first), Segment("b", third)];
    Tens(w);
    ValidTwo(w, "a", first, second);
    ValidTwo(w, "b", first, third);
    KickTwo(first[0], first[1]);
    KickTwo(second[0], second[0]);
    KickTwo(third[0], third[0]);
    assert first == [first[0], first[1]] && second == [second[0]] && third == [third[0]];
    WindowsTwo(w, 0, 10);
    WindowsTwo(w, 10, 20);
    assert Kick(first) == [0, 10] && Kick(third) == [] && !GoesOnAfter(w, b, 0);
    LastValueIsHeld(w, chunkSize, a);
    NilSegmentCutsColumn(w, chunkSize, b);
    WholeAndShort(w, chunkSize, a, b);
    SendingTwo(w, a, b);
    assert SameSeries(a[0].key, b[0].key) && [a, b][1] == b && [a, b][0] == a;
  }

  lemma WholeAndShort(w: Windowing, chunkSize: nat, a: seq<SeriesRecord>, b: seq<SeriesRecord>)
    requires |a| == 2 && |b| == 2 && Held(w, chunkSize, a, 2) > 0 && Held(w, chunkSize, b, 2) == 0
    requires Start(w, 0) == 0 && Start(w, 10) == 10 && Start(w, 20) == 20 && a[0].trMax == 20
    requires Kick(a[0].rows) == Kick(b[0].rows) == [0, 10] && Kick(b[1].rows) == []
    requires a[1].rows != [] && b[1].rows != [] && a[1].rows[0].time == b[1].rows[0].time == 20
    ensures Dues(w, a) != [] && Dues(w, b) == [0, 10] && EndsAt(w, chunkSize, a) == 20 && EndsAt(w, chunkSize, b) == 10
  {
    hide Start, Kick, Held, WindowsOf;
    assert b[1..][1..] == [] && b[1..][0] == b[1];
    DueNothing(w, b[1].rows);
    assert !GoesOnAfter(w, a, 0) && !GoesOnAfter(w, b, 0);
    WindowsTwo(w, 0, 10);
    assert Dues(w, b[1..]) == Due(w, Kick(b[1].rows), GoesOnAfter(w, b[1..], 0)) + Dues(w, []);
  }

  lemma SendingTwo(w: Windowing, a: seq<SeriesRecord>, b: seq<SeriesRecord>)
    requires Dues(w, a) != [] && Dues(w, b) != []
    ensures Sending(w, [a, b]) == [a, b]
  {
    hide Dues;
    SendingAll(w, [a, b]);
  }

  lemma SomeValueIsLost(w: Windowing, first: seq<RawRow>, second: seq<RawRow>)
    requires w == Windowing(10, 0) && first == [RawRow(0, false)] && second == [RawRow(5, true), RawRow(10, false)]
    ensures var g := [Segment("a", first), Segment("a", second)];
            ValidInput(w, 2, 0, [g]) && HeldInVain(w, g, 0)
  {
    hide ValidGroup, Kick, WindowsOf, HeldInVain, Dues, Values, Start;
    Tens(w);
    ValidTwo(w, "a", first, second);
    KickTwo(first[0], first[0]);
    KickTwo(second[0], second[1]);
    assert first == [first[0]] && second == [second[0], second[1]];
    NilRowLosesValue(w, [Segment("a", first), Segment("a", second)], 0, 10);
  }

  /** One field with values at 5 and 30, in a shard that starts at 5, with chunks of one
      row: the rows are at 5, 15 and 30, where 5, 10, 20 and 30 were due. */
  lemma SomeWindowIsMissing(w: Windowing, g: seq<SeriesRecord>)
    requires w == Windowing(10, 0)
    requires g == [SeriesRecord(Key("file", 1, "a"), 5, 30, [RawRow(5, false)]),
                   SeriesRecord(Key("file", 1, "a"), 5, 30, [RawRow(30, false)])]
    ensures ValidInput(w, 1, 5, [g]) && SameRange([g]) && Contiguous([g]) && Held(w, 1, g, 2) > 0
    ensures Slips(w, 1, 5, g) && SlipsTo(w, 1, 5, g) == 30
    ensures ColumnTimes(w, 5, 0, 30, EndsAt(w, 1, g)) == [5, 15, 30] && Covered(w, 5, g[0]) == [5, 10, 20, 30]
  {
    hide Kick, WindowsOf, Held, Start, Dues, FirstDue, Lead, Dense;
    Tens(w);
    StartShift(w, 20);
    KickTwo(RawRow(5, false), RawRow(5, false));
    KickTwo(RawRow(30, false), RawRow(30, false));
    WindowsTwo(w, 5, 30);
    LastValueIsHeld(w, 1, g);
    TwoDues(w, g);
    LeadOfTen(w);
    DenseOfTen(w);
  }

  lemma TwoDues(w: Windowing, g: seq<SeriesRecord>)
    requires |g| == 2 && Kick(g[0].rows) == [5] && Kick(g[1].rows) == [30] && g[1].rows == [RawRow(30, false)]
    requires WindowsOf(w, [5]) == [0] && WindowsOf(w, [30]) == [30] && Start(w, 5) == 0 && Start(w, 30) == 30
    ensures Dues(w, g) == [0, 30] && FirstDue(w, g) == [0]
  {
    hide Kick, WindowsOf, Start;
    assert g[1..] == [g[1]] && g[1..][1..] == [];
    assert !GoesOnAfter(w, g, 0) && !GoesOnAfter(w, g[1..], 0);
    assert Dues(w, g[1..]) == [30] + Dues(w, []);
  }

  lemma LeadOfTen(w: Windowing)
    requires w == Windowing(10, 0)
    ensures Lead(w, 5, 30) == [15]
  {
    assert StepCount(w, 5, 30) == 2;
    assert Later(w, 5, 1) == Later(w, 5, 0) + 10;
  }

  lemma DenseOfTen(w: Windowing)
    requires w == Windowing(10, 0)
    ensures Dense(w, 0, 30) == [0, 10, 20, 30] && Dense(w, 30, 30) == [30]
  {
    assert Dense(w, 30, 30) == [30] + Dense(w, 40, 30);
    assert Dense(w, 20, 30) == [20] + Dense(w, 30, 30);
    assert Dense(w, 10, 30) == [10] + Dense(w, 20, 30);
  }
}

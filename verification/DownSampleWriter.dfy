/**
  The writer of a down-sample task. Columns are flushed when the field, the series
  or the file changes, and the time column of a series is taken from its first field.
 */
module DownSampleWriter {
  import opened DownSampleWindows
  import opened DownSampleAggregator

  /** One column of a series, the columns of a series with its time column, and the
      series of a file. */
  datatype Column = Column(field: string, rows: seq<Row>)
  datatype Block = Block(sid: int, columns: seq<Column>, times: seq<int>)
  datatype File = File(name: string, blocks: seq<Block>)

  /** Records that follow each other with the same key belong together. */
  function Runs(recs: seq<OutRecord>): seq<OutRecord> {
    if recs == [] then [] else AddTo(Runs(recs[..|recs| - 1]), recs[|recs| - 1])
  }

  function AddTo(runs: seq<OutRecord>, r: OutRecord): seq<OutRecord> {
    var n := |runs| - 1;
    if runs != [] && runs[n].key == r.key then runs[..n] + [OutRecord(r.key, runs[n].rows + r.rows)] else runs + [r]
  }

  /** The columns of all files in the order they were written. */
  function ColumnsOf(name: string, sid: int, columns: seq<Column>): seq<OutRecord> {
    seq(|columns|, i requires 0 <= i < |columns| => OutRecord(Key(name, sid, columns[i].field), columns[i].rows))
  }

  function BlockColumns(name: string, blocks: seq<Block>): seq<OutRecord> {
    if blocks == [] then []
    else
      var b := blocks[|blocks| - 1];
      BlockColumns(name, blocks[..|blocks| - 1]) + ColumnsOf(name, b.sid, b.columns)
  }

  function FileColumns(files: seq<File>): seq<OutRecord> {
    if files == [] then []
    else
      var f := files[|files| - 1];
      FileColumns(files[..|files| - 1]) + BlockColumns(f.name, f.blocks)
  }

  /** Every series has a column, and its time column has the times of the first one. */
  ghost predicate TimedByFirst(files: seq<File>) {
    forall i, j :: 0 <= i < |files| && 0 <= j < |files[i].blocks| ==>
      var b := files[i].blocks[j];
      b.columns != [] && b.times == Times(b.columns[0].rows)
  }

  /** Neighbouring files, series of a file and columns of a series differ. */
  ghost predicate PartedColumns(columns: seq<Column>) {
    columns != [] && forall k :: 0 < k < |columns| ==> columns[k - 1].field != columns[k].field
  }

  ghost predicate PartedBlocks(blocks: seq<Block>) {
    && blocks != [] && (forall j :: 0 <= j < |blocks| ==> PartedColumns(blocks[j].columns))
    && (forall j :: 0 < j < |blocks| ==> blocks[j - 1].sid != blocks[j].sid)
  }

  ghost predicate Parted(files: seq<File>) {
    && (forall i :: 0 <= i < |files| ==> PartedBlocks(files[i].blocks))
    && (forall i :: 0 < i < |files| ==> files[i - 1].name != files[i].name)
  }

  class WriteIntoStorage {
    var currSid: int
    var currFile: string
    var currFieldName: string
    var timeInit: bool
    var timeCol: seq<int>
    var currRecord: seq<Row>
    // the file being written: finished series, and finished columns of the current one
    var blocks: seq<Block>
    var columns: seq<Column>
    var newFiles: seq<File>

    constructor ()
      ensures Valid() && Written() == []
    {
      currSid, currFile, currFieldName, timeInit := 0, "", "", false;
      timeCol, currRecord, blocks, columns, newFiles := [], [], [], [], [];
    }

    ghost function Current(): Block
      reads this
    {
      Block(currSid, columns + [Column(currFieldName, currRecord)], timeCol)
    }

    /** What the files hold once everything is flushed. */
    ghost function Written(): seq<File>
      reads this
    {
      newFiles + (if currSid == 0 then [] else [File(currFile, blocks + [Current()])])
    }

    ghost predicate Valid()
      reads this
    {
      if currSid == 0 then newFiles == [] else currRecord != [] && (timeInit <==> columns != [])
    }

    method WriteToFile()
      modifies this`columns
      ensures columns == old(columns) + (if currRecord == [] then [] else [Column(currFieldName, currRecord)])
    {
      if currRecord == [] {
        return;
      }
      columns := columns + [Column(currFieldName, currRecord)];
    }

    method WriteTimeToFile()
      modifies this`columns, this`blocks
      ensures blocks == old(blocks) + [Block(currSid, old(columns), timeCol)] && columns == []
    {
      blocks := blocks + [Block(currSid, columns, timeCol)];
      columns := [];
    }

    method EndFile()
      requires Valid() && currSid != 0
      modifies this`columns, this`blocks, this`newFiles
      ensures newFiles == old(Written()) && columns == []
    {
      WriteToFile();
      WriteTimeToFile();
      newFiles := newFiles + [File(currFile, blocks)];
    }

    method InitFile(rec: OutRecord)
      modifies this`currFile, this`blocks, this`columns
      ensures currFile == rec.key.file && blocks == [] && columns == []
    {
      currFile := rec.key.file;
      blocks, columns := [], [];
    }

    method InitCurrColVal(rec: OutRecord)
      modifies this`timeCol, this`currRecord, this`timeInit, this`currSid, this`currFieldName
      ensures currSid == rec.key.sid && currFieldName == rec.key.field && currRecord == rec.rows
      ensures timeCol == Times(rec.rows) && !timeInit
    {
      timeCol := [];
      currRecord := [];
      timeInit := false;
      currRecord := currRecord + rec.rows;
      timeCol := timeCol + Times(rec.rows);
      currSid := rec.key.sid;
      currFieldName := rec.key.field;
    }

    /** A record of the current series: another field, or more of the current one. */
    method AppendToSeries(rec: OutRecord)
      requires Valid() && currSid != 0 && rec.key.sid == currSid && rec.rows != []
      modifies this`timeInit, this`columns, this`currRecord, this`currFieldName, this`timeCol
      ensures Valid() && Current() == PlaceInBlock(old(Current()), rec)
    {
      hide Times;
      if currFieldName != rec.key.field {
        timeInit := true;
        WriteToFile();
        currRecord := [];
        currFieldName := rec.key.field;
      }
      if !timeInit {
        timeCol := timeCol + Times(rec.rows);
      }
      assert [] + rec.rows == rec.rows;
      currRecord := currRecord + rec.rows;
      assert old(Current()).columns[..|old(Current()).columns| - 1] == old(columns);
    }

    /** One record of the aggregator. */
    method WriteRecord(rec: OutRecord)
      requires Valid() && Parted(Written()) && rec.rows != [] && rec.key.sid != 0
      modifies this
      ensures Valid() && currSid != 0
      ensures Written() == Place(old(Written()), rec)
    {
      hide Times, Place, PlaceInBlocks, PlaceInBlock, Parted;
      ghost var current := Current();
      PlaceLast(newFiles, currFile, blocks, current, rec);
      if currSid == 0 {
        InitFile(rec);
        InitCurrColVal(rec);
        assert Current() == NewBlock(rec) && blocks + [Current()] == [NewBlock(rec)];
        return;
      }
      if currFile != rec.key.file {
        EndFile();
        InitFile(rec);
        InitCurrColVal(rec);
        assert Current() == NewBlock(rec) && blocks + [Current()] == [NewBlock(rec)];
        return;
      }
      if rec.key.sid != currSid {
        WriteToFile();
        WriteTimeToFile();
        InitCurrColVal(rec);
        assert Current() == NewBlock(rec);
        return;
      }
      AppendToSeries(rec);
    }

    /** All records, and the end of the last file. */
    method Work(recs: seq<OutRecord>)
      requires Valid() && Written() == [] && ValidRecs(recs)
      modifies this
      ensures FileColumns(newFiles) == Runs(recs)
      ensures TimedByFirst(newFiles) && Parted(newFiles)
    {
      hide FileColumns, TimedByFirst, Parted, AddTo, Place;
      NoFiles();
      for i := 0 to |recs|
        invariant Valid() && FileColumns(Written()) == Runs(recs[..i])
        invariant TimedByFirst(Written()) && Parted(Written())
      {
        PartedIsPlaceable(Written());
        PlaceColumns(Written(), recs[i]);
        PlaceTimed(Written(), recs[i]);
        PlaceParted(Written(), recs[i]);
        WriteRecord(recs[i]);
        assert recs[..i + 1][..i] == recs[..i];
      }
      assert recs[..|recs|] == recs;
      if currSid != 0 {
        EndFile();
      }
    }
  }

  lemma PlaceLast(files: seq<File>, name: string, blocks: seq<Block>, b: Block, rec: OutRecord)
    ensures Place([], rec) == [File(rec.key.file, [NewBlock(rec)])]
    ensures var f := File(name, blocks + [b]);
            && Parted(files + [f]) && b.columns != [] ==>
            Place(files + [f], rec) ==
              if name != rec.key.file then files + [f] + [File(rec.key.file, [NewBlock(rec)])]
              else if b.sid != rec.key.sid then files + [File(name, blocks + [b] + [NewBlock(rec)])]
              else files + [File(name, blocks + [PlaceInBlock(b, rec)])]
  {
    var f := File(name, blocks + [b]);
    var all := files + [f];
    assert all[..|files|] == files && all[|files|] == f;
    assert f.blocks[..|blocks|] == blocks && f.blocks[|blocks|] == b;
  }

  ghost predicate ValidRecs(recs: seq<OutRecord>) {
    forall i :: 0 <= i < |recs| ==> recs[i].rows != [] && recs[i].key.sid != 0
  }

  lemma NoFiles()
    ensures FileColumns([]) == [] && TimedByFirst([]) && Parted([])
  {
  }

  lemma FileColumnsSnoc(files: seq<File>, f: File)
    ensures FileColumns(files + [f]) == FileColumns(files) + BlockColumns(f.name, f.blocks)
  {
    assert (files + [f])[..|files|] == files;
  }

  lemma BlockColumnsSnoc(name: string, blocks: seq<Block>, b: Block)
    ensures BlockColumns(name, blocks + [b]) == BlockColumns(name, blocks) + ColumnsOf(name, b.sid, b.columns)
  {
    assert (blocks + [b])[..|blocks|] == blocks;
  }

  lemma AddToRight(a: seq<OutRecord>, b: seq<OutRecord>, r: OutRecord)
    requires b != []
    ensures AddTo(a + b, r) == a + AddTo(b, r)
  {
    var n := |b| - 1;
    assert (a + b)[|a + b| - 1] == b[n];
    assert (a + b)[..|a + b| - 1] == a + b[..n];
  }

  lemma PlaceInBlockColumns(name: string, b: Block, rec: OutRecord)
    requires b.columns != [] && b.sid == rec.key.sid && name == rec.key.file
    ensures PlaceInBlock(b, rec).sid == b.sid
    ensures ColumnsOf(name, b.sid, PlaceInBlock(b, rec).columns) == AddTo(ColumnsOf(name, b.sid, b.columns), rec)
  {
  }

  lemma PlaceInBlocksColumns(name: string, blocks: seq<Block>, rec: OutRecord)
    requires blocks != [] && (forall i :: 0 <= i < |blocks| ==> blocks[i].columns != []) && name == rec.key.file
    ensures BlockColumns(name, blocks) != []
    ensures BlockColumns(name, PlaceInBlocks(blocks, rec)) == AddTo(BlockColumns(name, blocks), rec)
  {
    hide BlockColumns, PlaceInBlock;
    var m := |blocks| - 1;
    var b := blocks[m];
    var cols := ColumnsOf(name, b.sid, b.columns);
    assert blocks[..m] + [b] == blocks;
    BlockColumnsSnoc(name, blocks[..m], b);
    AddToRight(BlockColumns(name, blocks[..m]), cols, rec);
    if b.sid != rec.key.sid {
      BlockColumnsSnoc(name, blocks, NewBlock(rec));
      assert ColumnsOf(name, rec.key.sid, NewBlock(rec).columns) == [rec];
    } else {
      PlaceInBlockColumns(name, b, rec);
      BlockColumnsSnoc(name, blocks[..m], PlaceInBlock(b, rec));
    }
  }

  lemma PlaceColumns(files: seq<File>, rec: OutRecord)
    requires Parted(files)
    ensures FileColumns(Place(files, rec)) == AddTo(FileColumns(files), rec)
  {
    hide FileColumns, BlockColumns, PlaceInBlocks;
    var n := |files| - 1;
    NewColumns(rec);
    if files == [] {
      NoFiles();
      FileColumnsSnoc(files, File(rec.key.file, [NewBlock(rec)]));
    } else {
      var f := files[n];
      assert files[..n] + [f] == files;
      FileColumnsSnoc(files[..n], f);
      if f.name != rec.key.file {
        FileColumnsSnoc(files, File(rec.key.file, [NewBlock(rec)]));
        LastKey(f.name, f.blocks);
      } else {
        PlaceInBlocksColumns(f.name, f.blocks, rec);
        AddToRight(FileColumns(files[..n]), BlockColumns(f.name, f.blocks), rec);
        FileColumnsSnoc(files[..n], File(f.name, PlaceInBlocks(f.blocks, rec)));
      }
    }
  }

  lemma NewColumns(rec: OutRecord)
    ensures BlockColumns(rec.key.file, [NewBlock(rec)]) == [rec]
  {
    BlockColumnsSnoc(rec.key.file, [], NewBlock(rec));
    assert [] + [NewBlock(rec)] == [NewBlock(rec)];
    assert ColumnsOf(rec.key.file, rec.key.sid, NewBlock(rec).columns) == [rec];
  }

  lemma LastKey(name: string, blocks: seq<Block>)
    requires blocks != [] && blocks[|blocks| - 1].columns != []
    ensures var cols := BlockColumns(name, blocks); cols != [] && cols[|cols| - 1].key.file == name
  {
  }

  lemma PlaceTimed(files: seq<File>, rec: OutRecord)
    requires Parted(files) && TimedByFirst(files)
    ensures TimedByFirst(Place(files, rec))
  {
    hide Times;
    if files != [] {
      var f := files[|files| - 1];
      var b := f.blocks[|f.blocks| - 1];
      TimesConcat(b.columns[0].rows, rec.rows);
    }
  }

  lemma PlaceInBlockParted(b: Block, rec: OutRecord)
    requires PartedColumns(b.columns)
    ensures PartedColumns(PlaceInBlock(b, rec).columns) && PlaceInBlock(b, rec).sid == b.sid
  {
    hide Times;
  }

  lemma PlaceInBlocksParted(blocks: seq<Block>, rec: OutRecord)
    requires PartedBlocks(blocks) && blocks[|blocks| - 1].columns != []
    ensures PartedBlocks(PlaceInBlocks(blocks, rec))
  {
    hide Times, PartedColumns, PlaceInBlock;
    NewBlockParted(rec);
    PlaceInBlockParted(blocks[|blocks| - 1], rec);
  }

  lemma NewBlockParted(rec: OutRecord)
    ensures PartedColumns(NewBlock(rec).columns) && PartedBlocks([NewBlock(rec)])
  {
  }

  lemma PlaceParted(files: seq<File>, rec: OutRecord)
    requires Parted(files) && Placeable(files)
    ensures Parted(Place(files, rec))
  {
    hide Times, PartedBlocks, PlaceInBlocks;
    NewBlockParted(rec);
    if files != [] {
      var f := files[|files| - 1];
      assert PartedBlocks(f.blocks);
      PlaceInBlocksParted(f.blocks, rec);
    }
  }

  lemma PartedIsPlaceable(files: seq<File>)
    requires Parted(files)
    ensures Placeable(files)
  {
    forall i | 0 <= i < |files| ensures files[i].blocks != [] && files[i].blocks[|files[i].blocks| - 1].columns != [] {
      assert PartedBlocks(files[i].blocks);
    }
  }

  ghost predicate Placeable(files: seq<File>) {
    forall i :: 0 <= i < |files| ==> files[i].blocks != [] && files[i].blocks[|files[i].blocks| - 1].columns != []
  }

  function NewBlock(rec: OutRecord): Block {
    Block(rec.key.sid, [Column(rec.key.field, rec.rows)], Times(rec.rows))
  }

  /** The effect of one record on the last series, the last file and all files. */
  function PlaceInBlock(b: Block, rec: OutRecord): Block
    requires b.columns != []
  {
    var k := |b.columns| - 1;
    if b.columns[k].field != rec.key.field then
      Block(b.sid, b.columns + [Column(rec.key.field, rec.rows)], b.times)
    else
      Block(b.sid, b.columns[..k] + [Column(rec.key.field, b.columns[k].rows + rec.rows)],
            if k == 0 then b.times + Times(rec.rows) else b.times)
  }

  function PlaceInBlocks(blocks: seq<Block>, rec: OutRecord): seq<Block>
    requires blocks != [] && blocks[|blocks| - 1].columns != []
  {
    var m := |blocks| - 1;
    if blocks[m].sid != rec.key.sid then blocks + [NewBlock(rec)] else blocks[..m] + [PlaceInBlock(blocks[m], rec)]
  }

  ghost function Place(files: seq<File>, rec: OutRecord): seq<File>
    requires Placeable(files)
  {
    var n := |files| - 1;
    if files == [] || files[n].name != rec.key.file then files + [File(rec.key.file, [NewBlock(rec)])]
    else files[..n] + [File(rec.key.file, PlaceInBlocks(files[n].blocks, rec))]
  }
}

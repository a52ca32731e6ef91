/**
  The reader of a down-sample task: iterators over the files, the meta indexes of a
  file, the series of a meta index, the fields of a series and the segments of a field.
 */
module DownSampleReader {
  import opened Options
  import opened DownSampleAggregator

  /** A series of a file: for every field its segments, absent where a read gives nil. */
  datatype Chunk = Chunk(sid: int, trMin: int, trMax: int, segCount: nat, cells: seq<seq<Option<seq<RawRow>>>>)

  datatype TsspFile = TsspFile(path: string, metaIndexes: seq<seq<Chunk>>)

  ghost predicate ValidChunk(names: seq<string>, c: Chunk) {
    |c.cells| == |names| && forall f :: 0 <= f < |names| ==> |c.cells[f]| == c.segCount
  }

  ghost predicate ValidChunks(names: seq<string>, chunks: seq<Chunk>) {
    chunks != [] && forall k :: 0 <= k < |chunks| ==> ValidChunk(names, chunks[k])
  }

  ghost predicate ValidFile(names: seq<string>, file: TsspFile) {
    file.metaIndexes != [] && forall m :: 0 <= m < |file.metaIndexes| ==> ValidChunks(names, file.metaIndexes[m])
  }

  /** The segments of a field that can be read, in order. */
  function Present(key: Key, c: Chunk, cells: seq<Option<seq<RawRow>>>): seq<SeriesRecord> {
    if cells == [] then []
    else (if cells[0].Some? then [SeriesRecord(key, c.trMin, c.trMax, cells[0].value)] else [])
         + Present(key, c, cells[1..])
  }

  function FieldRecords(path: string, names: seq<string>, c: Chunk, f: nat): seq<SeriesRecord>
    requires f < |names|
  {
    if f < |c.cells| then Present(Key(path, c.sid, names[f]), c, c.cells[f]) else []
  }

  /** The fields of a series from field `f` on. */
  function Fields(path: string, names: seq<string>, c: Chunk, f: nat): seq<seq<SeriesRecord>>
    decreases |names| - f
  {
    if f >= |names| then [] else [FieldRecords(path, names, c, f)] + Fields(path, names, c, f + 1)
  }

  function ChunkFields(path: string, names: seq<string>, chunks: seq<Chunk>): seq<seq<SeriesRecord>> {
    if chunks == [] then [] else Fields(path, names, chunks[0], 0) + ChunkFields(path, names, chunks[1..])
  }

  function MetaFields(path: string, names: seq<string>, metaIndexes: seq<seq<Chunk>>): seq<seq<SeriesRecord>> {
    if metaIndexes == [] then []
    else ChunkFields(path, names, metaIndexes[0]) + MetaFields(path, names, metaIndexes[1..])
  }

  /** The segments of every field of every series of every file, in that order. */
  function AllFields(names: seq<string>, files: seq<TsspFile>): seq<seq<SeriesRecord>> {
    if files == [] then [] else MetaFields(files[0].path, names, files[0].metaIndexes) + AllFields(names, files[1..])
  }

  lemma {:induction false} JoinedConcat<T>(a: seq<seq<T>>, b: seq<seq<T>>)
    ensures Joined(a + b) == Joined(a) + Joined(b)
  {
    if a == [] {
      assert a + b == b;
    } else {
      JoinedConcat(a[1..], b);
      assert (a + b)[0] == a[0] && (a + b)[1..] == a[1..] + b;
    }
  }

  lemma Prepend<T>(x: T, a: seq<T>, b: seq<T>, rest: seq<T>)
    requires a == [x] + b
    ensures a + rest == [x] + (b + rest)
  {
  }

  /** The fields and segments of one series. */
  class ChunkMetaByField {
    const path: string
    const names: seq<string>
    var chunk: Chunk
    var segIndex: int
    var pos: nat
    // whether the end was not reported yet; asking once more would read the last field again
    ghost var live: bool

    constructor (path: string, names: seq<string>, chunk: Chunk)
      requires names != [] && ValidChunk(names, chunk)
      ensures this.path == path && this.names == names && this.chunk == chunk
      ensures Valid() && live && Remaining() == Joined(Fields(path, names, chunk, 0))
    {
      this.path, this.names, this.chunk := path, names, chunk;
      segIndex, pos, live := -1, 0, true;
      new;
      Whole();
    }

    ghost predicate Valid()
      reads this
    {
      pos < |names| && ValidChunk(names, chunk) && -1 <= segIndex < chunk.segCount
    }

    ghost function Remaining(): seq<SeriesRecord>
      requires Valid()
      reads this
    {
      Present(Key(path, chunk.sid, names[pos]), chunk, chunk.cells[pos][segIndex + 1..])
      + Joined(Fields(path, names, chunk, pos + 1))
    }

    lemma Whole()
      requires Valid() && segIndex == -1 && pos == 0
      ensures Remaining() == Joined(Fields(path, names, chunk, 0))
    {
      assert chunk.cells[0][0..] == chunk.cells[0];
      assert Fields(path, names, chunk, 0)[1..] == Fields(path, names, chunk, 1);
    }

    method ReInit(chunk: Chunk)
      requires Valid() && segIndex == -1 && ValidChunk(names, chunk)
      modifies this
      ensures Valid() && live && this.chunk == chunk && segIndex == -1
      ensures Remaining() == Joined(Fields(path, names, chunk, 0))
    {
      pos := 0;
      this.chunk := chunk;
      live := true;
      Whole();
    }

    method Next() returns (r: Option<SeriesRecord>)
      requires Valid() && live
      modifies this
      ensures Valid() && chunk == old(chunk)
      ensures r.None? ==> old(Remaining()) == [] && segIndex == -1
      ensures r.Some? ==> live && old(Remaining()) == [r.value] + Remaining()
      ensures r.Some? ==> r.value.key.sid == chunk.sid && r.value.trMin == chunk.trMin && r.value.trMax == chunk.trMax
    {
      while true
        invariant Valid() && live && chunk == old(chunk)
        invariant Remaining() == old(Remaining())
        decreases |names| - pos, chunk.segCount - segIndex
      {
        ghost var before := chunk.cells[pos][segIndex + 1..];
        segIndex := segIndex + 1;
        if segIndex >= chunk.segCount {
          assert before == [];
          if pos < |names| - 1 {
            pos := pos + 1;
            segIndex := -1;
            assert chunk.cells[pos][0..] == chunk.cells[pos];
            assert Fields(path, names, chunk, pos)[1..] == Fields(path, names, chunk, pos + 1);
            continue;
          } else {
            segIndex := -1;
            live := false;
            return None;
          }
        }
        var rec := chunk.cells[pos][segIndex];
        assert before[1..] == chunk.cells[pos][segIndex + 1..];
        if rec.None? {
          continue;
        }
        return Some(SeriesRecord(Key(path, chunk.sid, names[pos]), chunk.trMin, chunk.trMax, rec.value));
      }
    }
  }

  /** The series of one meta index. */
  class ChunkMetaByFieldIters {
    const path: string
    const names: seq<string>
    const chunks: seq<Chunk>
    const current: ChunkMetaByField
    var pos: nat
    var tr: Option<(int, int)>

    constructor (path: string, names: seq<string>, chunks: seq<Chunk>)
      requires names != [] && ValidChunks(names, chunks)
      ensures this.path == path && this.names == names && this.chunks == chunks && fresh(current)
      ensures Valid() && current.live && Remaining() == Joined(ChunkFields(path, names, chunks))
    {
      assert ValidChunk(names, chunks[0]);
      this.path, this.names, this.chunks := path, names, chunks;
      pos, tr := 0, None;
      current := new ChunkMetaByField(path, names, chunks[0]);
      new;
      JoinedConcat(Fields(path, names, chunks[0], 0), ChunkFields(path, names, chunks[1..]));
    }

    ghost predicate Valid()
      reads this, current
    {
      && pos < |chunks| && ValidChunks(names, chunks)
      && current.path == path && current.names == names && current.chunk == chunks[pos] && current.Valid()
      && (tr.Some? ==> tr.value == (chunks[pos].trMin, chunks[pos].trMax))
    }

    ghost function Remaining(): seq<SeriesRecord>
      requires Valid()
      reads this, current
    {
      current.Remaining() + Joined(ChunkFields(path, names, chunks[pos + 1..]))
    }

    method Next() returns (r: Option<SeriesRecord>)
      requires Valid() && current.live
      modifies this, current
      ensures Valid()
      ensures r.None? ==> old(Remaining()) == []
      ensures r.Some? ==> current.live && old(Remaining()) == [r.value] + Remaining()
    {
      hide Fields, ChunkFields, ChunkMetaByField.Remaining;
      while true
        invariant Valid() && current.live
        invariant Remaining() == old(Remaining())
        decreases |chunks| - pos
      {
        ghost var before := current.Remaining();
        var data := current.Next();
        if data.Some? {
          if tr.None? {
            tr := Some((current.chunk.trMin, current.chunk.trMax));
          }
          r := Some(data.value.(trMin := tr.value.0, trMax := tr.value.1));
          Prepend(r.value, before, current.Remaining(), Joined(ChunkFields(path, names, chunks[pos + 1..])));
          return;
        }
        if pos < |chunks| - 1 {
          NextChunk(path, names, chunks, pos);
          pos := pos + 1;
          current.ReInit(chunks[pos]);
          tr := None;
          continue;
        }
        LastChunk(path, names, chunks, pos);
        return None;
      }
    }
  }

  lemma NextChunk(path: string, names: seq<string>, chunks: seq<Chunk>, pos: nat)
    requires ValidChunks(names, chunks) && pos + 1 < |chunks|
    ensures ValidChunk(names, chunks[pos + 1])
    ensures Joined(ChunkFields(path, names, chunks[pos + 1..]))
         == Joined(Fields(path, names, chunks[pos + 1], 0)) + Joined(ChunkFields(path, names, chunks[pos + 2..]))
  {
    var rest := chunks[pos + 1..];
    assert rest[0] == chunks[pos + 1] && rest[1..] == chunks[pos + 2..];
    JoinedConcat(Fields(path, names, rest[0], 0), ChunkFields(path, names, rest[1..]));
  }

  lemma LastChunk(path: string, names: seq<string>, chunks: seq<Chunk>, pos: nat)
    requires pos < |chunks| <= pos + 1
    ensures Joined(ChunkFields(path, names, chunks[pos + 1..])) == []
  {
  }

  /** The meta indexes of one file. */
  class MetaIndexIterator {
    const names: seq<string>
    const file: TsspFile
    var pos: nat
    var current: ChunkMetaByFieldIters

    constructor (names: seq<string>, file: TsspFile)
      requires names != [] && ValidFile(names, file)
      ensures this.names == names && this.file == file && fresh(current) && fresh(current.current)
      ensures Valid() && current.current.live && Remaining() == Joined(MetaFields(file.path, names, file.metaIndexes))
    {
      assert ValidChunks(names, file.metaIndexes[0]);
      this.names, this.file := names, file;
      pos := 1;
      current := new ChunkMetaByFieldIters(file.path, names, file.metaIndexes[0]);
      new;
      JoinedConcat(ChunkFields(file.path, names, file.metaIndexes[0]),
                   MetaFields(file.path, names, file.metaIndexes[1..]));
    }

    ghost predicate Valid()
      reads this, current, current.current
    {
      && 0 < pos <= |file.metaIndexes| && names != [] && ValidFile(names, file)
      && current.path == file.path && current.names == names && current.Valid()
    }

    ghost function Remaining(): seq<SeriesRecord>
      requires Valid()
      reads this, current, current.current
    {
      current.Remaining() + Joined(MetaFields(file.path, names, file.metaIndexes[pos..]))
    }

    method Next() returns (r: Option<SeriesRecord>)
      requires Valid() && current.current.live
      modifies this, current, current.current
      ensures Valid() && (current == old(current) || fresh(current))
           && (current.current == old(current.current) || fresh(current.current))
      ensures r.None? ==> old(Remaining()) == []
      ensures r.Some? ==> current.current.live && old(Remaining()) == [r.value] + Remaining()
    {
      hide Fields, ChunkFields, MetaFields, Joined, ValidFile, ValidChunks, ChunkMetaByField.Remaining,
        ChunkMetaByFieldIters.Remaining,
        ChunkMetaByField.Valid, ChunkMetaByFieldIters.Valid;
      while true
        invariant Valid() && current.current.live
        invariant current == old(current) || fresh(current)
        invariant current.current == old(current.current) || fresh(current.current)
        invariant Remaining() == old(Remaining())
        decreases |file.metaIndexes| - pos
      {
        ghost var before, rest := current.Remaining(), Joined(MetaFields(file.path, names, file.metaIndexes[pos..]));
        r := current.Next();
        if r.Some? {
          Prepend(r.value, before, current.Remaining(), rest);
          return;
        }
        if pos >= |file.metaIndexes| {
          LastMeta(file.path, names, file.metaIndexes, pos);
          return;
        }
        NextMeta(names, file, pos);
        current := new ChunkMetaByFieldIters(file.path, names, file.metaIndexes[pos]);
        pos := pos + 1;
      }
    }
  }

  lemma NextMeta(names: seq<string>, file: TsspFile, pos: nat)
    requires ValidFile(names, file) && pos < |file.metaIndexes|
    ensures ValidChunks(names, file.metaIndexes[pos])
    ensures Joined(MetaFields(file.path, names, file.metaIndexes[pos..]))
         == Joined(ChunkFields(file.path, names, file.metaIndexes[pos]))
            + Joined(MetaFields(file.path, names, file.metaIndexes[pos + 1..]))
  {
    var rest := file.metaIndexes[pos..];
    assert rest[0] == file.metaIndexes[pos] && rest[1..] == file.metaIndexes[pos + 1..];
    JoinedConcat(ChunkFields(file.path, names, rest[0]), MetaFields(file.path, names, rest[1..]));
  }

  lemma LastMeta(path: string, names: seq<string>, metaIndexes: seq<seq<Chunk>>, pos: nat)
    requires pos == |metaIndexes|
    ensures Joined(MetaFields(path, names, metaIndexes[pos..])) == []
  {
  }

  class TsspSequenceReader {
    const names: seq<string>
    const files: seq<TsspFile>
    var fileIndex: nat
    var metaIndexIterator: MetaIndexIterator

    constructor (names: seq<string>, files: seq<TsspFile>)
      requires names != [] && ValidFiles(names, files)
      ensures this.names == names && this.files == files
      ensures fresh(metaIndexIterator) && fresh(metaIndexIterator.current) && fresh(metaIndexIterator.current.current)
      ensures Valid() && metaIndexIterator.current.current.live && Remaining() == Joined(AllFields(names, files))
    {
      hide ValidFile, ValidFiles, AllFields, MetaFields, Joined, MetaIndexIterator.Valid, MetaIndexIterator.Remaining;
      FirstFile(names, files);
      this.names, this.files := names, files;
      fileIndex := 0;
      metaIndexIterator := new MetaIndexIterator(names, files[0]);
    }

    ghost predicate Valid()
      reads this, metaIndexIterator, metaIndexIterator.current, metaIndexIterator.current.current
    {
      && fileIndex < |files| && names != [] && ValidFiles(names, files)
      && metaIndexIterator.names == names && metaIndexIterator.file == files[fileIndex] && metaIndexIterator.Valid()
    }

    ghost function Remaining(): seq<SeriesRecord>
      requires Valid()
      reads this, metaIndexIterator, metaIndexIterator.current, metaIndexIterator.current.current
    {
      metaIndexIterator.Remaining() + Joined(AllFields(names, files[fileIndex + 1..]))
    }

    /** The next segment that can be read, of whatever file it is. */
    method ReadRecord() returns (r: Option<SeriesRecord>)
      requires Valid() && metaIndexIterator.current.current.live
      modifies this, metaIndexIterator, metaIndexIterator.current, metaIndexIterator.current.current
      ensures Valid()
      ensures metaIndexIterator == old(metaIndexIterator) || fresh(metaIndexIterator)
      ensures metaIndexIterator.current == old(metaIndexIterator.current) || fresh(metaIndexIterator.current)
      ensures metaIndexIterator.current.current == old(metaIndexIterator.current.current)
           || fresh(metaIndexIterator.current.current)
      ensures r.None? ==> old(Remaining()) == []
      ensures r.Some? ==> metaIndexIterator.current.current.live && old(Remaining()) == [r.value] + Remaining()
    {
      hide Fields, ChunkFields, MetaFields, AllFields, Joined, ValidFile, ValidFiles, ValidChunks,
        ChunkMetaByField.Remaining,
        ChunkMetaByFieldIters.Remaining, MetaIndexIterator.Remaining, ChunkMetaByField.Valid,
        ChunkMetaByFieldIters.Valid, MetaIndexIterator.Valid;
      r := None;
      while r.None?
        invariant Valid()
        invariant metaIndexIterator == old(metaIndexIterator) || fresh(metaIndexIterator)
        invariant metaIndexIterator.current == old(metaIndexIterator.current) || fresh(metaIndexIterator.current)
        invariant metaIndexIterator.current.current == old(metaIndexIterator.current.current)
               || fresh(metaIndexIterator.current.current)
        invariant metaIndexIterator.current.current.live
        invariant old(Remaining()) == (if r.Some? then [r.value] else []) + Remaining()
        decreases |files| - fileIndex, r.None?
      {
        ghost var before, rest := metaIndexIterator.Remaining(), Joined(AllFields(names, files[fileIndex + 1..]));
        r := metaIndexIterator.Next();
        if r.Some? {
          Prepend(r.value, before, metaIndexIterator.Remaining(), rest);
        }
        if fileIndex >= |files| - 1 {
          LastFile(names, files, fileIndex);
          break;
        }
        if r.None? {
          NextFile(names, files, fileIndex);
          fileIndex := fileIndex + 1;
          metaIndexIterator := new MetaIndexIterator(names, files[fileIndex]);
        }
      }
    }
  }

  ghost predicate ValidFiles(names: seq<string>, files: seq<TsspFile>) {
    files != [] && forall i :: 0 <= i < |files| ==> ValidFile(names, files[i])
  }

  lemma FirstFile(names: seq<string>, files: seq<TsspFile>)
    requires ValidFiles(names, files)
    ensures files != [] && ValidFile(names, files[0])
    ensures Joined(AllFields(names, files))
         == Joined(MetaFields(files[0].path, names, files[0].metaIndexes)) + Joined(AllFields(names, files[1..]))
  {
    JoinedConcat(MetaFields(files[0].path, names, files[0].metaIndexes), AllFields(names, files[1..]));
  }

  lemma NextFile(names: seq<string>, files: seq<TsspFile>, i: nat)
    requires ValidFiles(names, files) && i + 1 < |files|
    ensures ValidFile(names, files[i + 1])
    ensures Joined(AllFields(names, files[i + 1..]))
         == Joined(MetaFields(files[i + 1].path, names, files[i + 1].metaIndexes))
            + Joined(AllFields(names, files[i + 2..]))
  {
    var rest := files[i + 1..];
    assert rest[0] == files[i + 1] && rest[1..] == files[i + 2..];
    JoinedConcat(MetaFields(rest[0].path, names, rest[0].metaIndexes), AllFields(names, rest[1..]));
  }

  lemma LastFile(names: seq<string>, files: seq<TsspFile>, i: nat)
    requires i < |files| <= i + 1
    ensures Joined(AllFields(names, files[i + 1..])) == []
  {
  }

  /** The records of all files: every segment of every field of every series once and in
      order, without those that cannot be read. */
  method Read(names: seq<string>, files: seq<TsspFile>) returns (out: seq<SeriesRecord>)
    requires names != [] && ValidFiles(names, files)
    ensures out == Joined(AllFields(names, files))
  {
    hide ValidFiles, AllFields, Joined, TsspSequenceReader.Valid, TsspSequenceReader.Remaining;
    var reader := new TsspSequenceReader(names, files);
    ghost var all := reader.Remaining();
    out := [];
    while true
      invariant reader.Valid() && reader.metaIndexIterator.current.current.live
      invariant fresh(reader.metaIndexIterator) && fresh(reader.metaIndexIterator.current)
             && fresh(reader.metaIndexIterator.current.current)
      invariant out + reader.Remaining() == all
      decreases |all| - |out|
    {
      var r := reader.ReadRecord();
      if r.None? {
        return;
      }
      out := out + [r.value];
    }
  }
}

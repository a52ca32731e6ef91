/**
  The order in which the reader of a down-sample task gives the fields: for every choice
  of distinct files, series and fields, each field comes once, and the fields of a series
  come one after the other with the time range of the series.
 */
module ReadingOrder {
  import opened Options
  import opened DownSampleAggregator
  import opened DownSampleReader

  predicate SameSeries(a: Key, b: Key) {
    a.file == b.file && a.sid == b.sid
  }

  /** Fields of one series come with the time range of that series. */
  ghost predicate SameRange(fields: seq<seq<SeriesRecord>>) {
    forall i, j :: 0 <= i < |fields| && 0 <= j < |fields| && fields[i] != [] && fields[j] != []
      && fields[i][0].key.file == fields[j][0].key.file && fields[i][0].key.sid == fields[j][0].key.sid
      ==> fields[i][0].trMin == fields[j][0].trMin && fields[i][0].trMax == fields[j][0].trMax
  }

  /** The records of a series follow each other. */
  ghost predicate Contiguous(fields: seq<seq<SeriesRecord>>) {
    forall i, j, k :: 0 <= i < j < k < |fields| && fields[i] != [] && fields[j] != [] && fields[k] != [] ==>
      SameSeries(fields[i][0].key, fields[k][0].key) ==> SameSeries(fields[i][0].key, fields[j][0].key)
  }

  /** The fields of which a segment can be read. */
  function NonEmpty(fields: seq<seq<SeriesRecord>>): seq<seq<SeriesRecord>> {
    if fields == [] then [] else (if fields[0] == [] then [] else [fields[0]]) + NonEmpty(fields[1..])
  }

  lemma {:induction false} NonEmptyJoined(fields: seq<seq<SeriesRecord>>)
    ensures Joined(NonEmpty(fields)) == Joined(fields)
  {
    if fields != [] {
      var rest := NonEmpty(fields[1..]);
      NonEmptyJoined(fields[1..]);
      if fields[0] == [] {
        assert NonEmpty(fields) == rest;
        assert [] + Joined(rest) == Joined(rest);
      } else {
        assert NonEmpty(fields) == [fields[0]] + rest;
        JoinedConcat([fields[0]], rest);
        assert [fields[0]][1..] == [] && fields[0] + [] == fields[0];
      }
    }
  }

  lemma Regroup<T>(a: seq<T>, b: seq<T>, c: seq<T>)
    ensures a + (b + c) == a + b + c
  {
  }

  lemma {:induction false} NonEmptyConcat(a: seq<seq<SeriesRecord>>, b: seq<seq<SeriesRecord>>)
    ensures NonEmpty(a + b) == NonEmpty(a) + NonEmpty(b)
  {
    if a == [] {
      assert a + b == b;
    } else {
      NonEmptyConcat(a[1..], b);
      assert (a + b)[0] == a[0] && (a + b)[1..] == a[1..] + b;
      Regroup(if a[0] == [] then [] else [a[0]], NonEmpty(a[1..]), NonEmpty(b));
    }
  }

  /** No series twice in a file, and no file twice. */
  ghost predicate DistinctSids(chunks: seq<Chunk>) {
    && (forall k :: 0 <= k < |chunks| ==> chunks[k].sid != 0)
    && (forall i, j :: 0 <= i < j < |chunks| ==> chunks[i].sid != chunks[j].sid)
  }

  ghost predicate DistinctSeries(files: seq<TsspFile>) {
    && (forall i :: 0 <= i < |files| ==> DistinctSids(Joined(files[i].metaIndexes)))
    && (forall i, j :: 0 <= i < j < |files| ==> files[i].path != files[j].path)
  }

  ghost predicate Distinct(names: seq<string>) {
    forall i, j :: 0 <= i < j < |names| ==> names[i] != names[j]
  }

  /** What the order of the reader gives: every field once, the fields of a series one after
      the other and with its time range. */
  ghost predicate Tidy(fields: seq<seq<SeriesRecord>>) {
    && (forall k :: 0 <= k < |fields| ==> fields[k] != [] && fields[k][0].key.sid != 0)
    && (forall i, j :: 0 <= i < j < |fields| ==>
          fields[i] != [] && fields[j] != [] && fields[i][0].key != fields[j][0].key)
    && SameRange(fields) && Contiguous(fields)
  }

  lemma NothingTidy()
    ensures Tidy([])
  {
  }

  lemma TidyConcat(a: seq<seq<SeriesRecord>>, b: seq<seq<SeriesRecord>>)
    requires Tidy(a) && Tidy(b)
    requires forall i, j :: 0 <= i < |a| && 0 <= j < |b| ==> !SameSeries(a[i][0].key, b[j][0].key)
    ensures Tidy(a + b)
  {
    hide SameRange, Contiguous;
    var c: seq<seq<SeriesRecord>> := a + b;
    forall i, j | 0 <= i < j < |c| ensures c[i][0].key != c[j][0].key {
      if i < |a| <= j {
        assert !SameSeries(a[i][0].key, b[j - |a|][0].key);
      }
    }
    RangeConcat(a, b);
    ContiguousConcat(a, b);
  }

  lemma RangeConcat(a: seq<seq<SeriesRecord>>, b: seq<seq<SeriesRecord>>)
    requires SameRange(a) && SameRange(b) && (forall k :: 0 <= k < |a| ==> a[k] != [])
          && (forall k :: 0 <= k < |b| ==> b[k] != [])
    requires forall i, j :: 0 <= i < |a| && 0 <= j < |b| ==> !SameSeries(a[i][0].key, b[j][0].key)
    ensures SameRange(a + b)
  {
    var c: seq<seq<SeriesRecord>> := a + b;
    forall i, j | 0 <= i < |c| && 0 <= j < |c| && SameSeries(c[i][0].key, c[j][0].key)
      ensures c[i][0].trMin == c[j][0].trMin && c[i][0].trMax == c[j][0].trMax
    {
      assert i >= |a| ==> c[i] == b[i - |a|];
      assert j >= |a| ==> c[j] == b[j - |a|];
    }
  }

  lemma ContiguousConcat(a: seq<seq<SeriesRecord>>, b: seq<seq<SeriesRecord>>)
    requires Contiguous(a) && Contiguous(b) && (forall k :: 0 <= k < |a| ==> a[k] != [])
          && (forall k :: 0 <= k < |b| ==> b[k] != [])
    requires forall i, j :: 0 <= i < |a| && 0 <= j < |b| ==> !SameSeries(a[i][0].key, b[j][0].key)
    ensures Contiguous(a + b)
  {
    var c: seq<seq<SeriesRecord>> := a + b;
    forall i, j, k | 0 <= i < j < k < |c| && SameSeries(c[i][0].key, c[k][0].key)
      ensures SameSeries(c[i][0].key, c[j][0].key)
    {
      assert k >= |a| ==> c[k] == b[k - |a|];
    }
  }

  /** All fields of series `c` of file `path`, among the given names. */
  ghost predicate OfSeries(path: string, names: seq<string>, c: Chunk, fields: seq<seq<SeriesRecord>>) {
    forall k :: 0 <= k < |fields| ==>
      && fields[k] != [] && fields[k][0].key.file == path && fields[k][0].key.sid == c.sid
      && fields[k][0].key.field in names
      && fields[k][0].trMin == c.trMin && fields[k][0].trMax == c.trMax
  }

  lemma {:induction false} PresentHead(key: Key, c: Chunk, cells: seq<Option<seq<RawRow>>>)
    ensures var r := Present(key, c, cells);
            r != [] ==> r[0].key == key && r[0].trMin == c.trMin && r[0].trMax == c.trMax
  {
    if cells != [] {
      PresentHead(key, c, cells[1..]);
    }
  }

  lemma {:induction false} ChunkTidy(path: string, names: seq<string>, c: Chunk, f: nat)
    requires f <= |names| && Distinct(names) && c.sid != 0
    ensures var fields := NonEmpty(Fields(path, names, c, f)); OfSeries(path, names[f..], c, fields) && Tidy(fields)
    decreases |names| - f
  {
    hide Present;
    if f < |names| {
      ChunkTidy(path, names, c, f + 1);
      var head, rest := FieldRecords(path, names, c, f), Fields(path, names, c, f + 1);
      if f < |c.cells| {
        PresentHead(Key(path, c.sid, names[f]), c, c.cells[f]);
      }
      assert Fields(path, names, c, f)[1..] == rest;
      OneFieldMore(path, names, c, f, head, NonEmpty(rest));
    }
  }

  lemma OneFieldMore(path: string, names: seq<string>, c: Chunk, f: nat, head: seq<SeriesRecord>,
                     rest: seq<seq<SeriesRecord>>)
    requires f < |names| && Distinct(names) && c.sid != 0 && OfSeries(path, names[f + 1..], c, rest) && Tidy(rest)
    requires head != [] ==>
               head[0].key == Key(path, c.sid, names[f]) && head[0].trMin == c.trMin && head[0].trMax == c.trMax
    ensures var fields := (if head == [] then [] else [head]) + rest;
            OfSeries(path, names[f..], c, fields) && Tidy(fields)
  {
    var fields: seq<seq<SeriesRecord>> := (if head == [] then [] else [head]) + rest;
    forall k | 0 <= k < |fields| ensures fields[k] != [] && fields[k][0].key.field in names[f..] {
      if head != [] && k == 0 {
        assert names[f] == names[f..][0];
      } else {
        var r := if head == [] then rest[k] else rest[k - 1];
        var i :| 0 <= i < |names[f + 1..]| && names[f + 1..][i] == r[0].key.field;
        assert names[f..][i + 1] == r[0].key.field;
      }
    }
    assert OfSeries(path, names[f..], c, fields);
    if head != [] {
      forall k | 0 <= k < |rest| ensures rest[k][0].key != head[0].key {
        var i :| 0 <= i < |names[f + 1..]| && names[f + 1..][i] == rest[k][0].key.field;
        assert names[f + 1 + i] != names[f];
      }
    }
  }

  /** The fields of some of the series of a file. */
  ghost predicate OfFile(path: string, chunks: seq<Chunk>, fields: seq<seq<SeriesRecord>>) {
    forall k :: 0 <= k < |fields| ==>
      && fields[k] != [] && fields[k][0].key.file == path
      && exists i :: 0 <= i < |chunks| && fields[k][0].key.sid == chunks[i].sid
  }

  lemma {:induction false} FileTidy(path: string, names: seq<string>, chunks: seq<Chunk>)
    requires Distinct(names) && DistinctSids(chunks)
    ensures var fields := NonEmpty(ChunkFields(path, names, chunks)); OfFile(path, chunks, fields) && Tidy(fields)
  {
    hide Tidy, Fields;
    if chunks == [] {
      NothingTidy();
    } else {
      var c, rest := chunks[0], chunks[1..];
      FileTidy(path, names, rest);
      ChunkTidy(path, names, c, 0);
      var a: seq<seq<SeriesRecord>>, b: seq<seq<SeriesRecord>> := NonEmpty(Fields(path, names, c, 0)),
          NonEmpty(ChunkFields(path, names, rest));
      NonEmptyConcat(Fields(path, names, c, 0), ChunkFields(path, names, rest));
      forall k | 0 <= k < |b|
        ensures b[k] != [] && b[k][0].key.sid != c.sid
        ensures exists i :: 0 <= i < |chunks| && b[k][0].key.sid == chunks[i].sid
      {
        var i :| 0 <= i < |rest| && b[k][0].key.sid == rest[i].sid;
        assert chunks[i + 1] == rest[i];
      }
      TidyConcat(a, b);
      forall k | 0 <= k < |a| ensures a[k] != [] && exists i :: 0 <= i < |chunks| && a[k][0].key.sid == chunks[i].sid {
        assert a[k][0].key.sid == chunks[0].sid;
      }
    }
  }

  lemma {:induction false} ChunkFieldsConcat(path: string, names: seq<string>, a: seq<Chunk>, b: seq<Chunk>)
    ensures ChunkFields(path, names, a + b) == ChunkFields(path, names, a) + ChunkFields(path, names, b)
  {
    hide Fields;
    if a == [] {
      assert a + b == b;
    } else {
      ChunkFieldsConcat(path, names, a[1..], b);
      assert (a + b)[0] == a[0] && (a + b)[1..] == a[1..] + b;
      Regroup(Fields(path, names, a[0], 0), ChunkFields(path, names, a[1..]), ChunkFields(path, names, b));
    }
  }

  lemma {:induction false} MetaIsChunks(path: string, names: seq<string>, metaIndexes: seq<seq<Chunk>>)
    ensures MetaFields(path, names, metaIndexes) == ChunkFields(path, names, Joined(metaIndexes))
  {
    if metaIndexes != [] {
      MetaIsChunks(path, names, metaIndexes[1..]);
      ChunkFieldsConcat(path, names, metaIndexes[0], Joined(metaIndexes[1..]));
    }
  }

  /** The fields of some of the files. */
  ghost predicate OfFiles(files: seq<TsspFile>, fields: seq<seq<SeriesRecord>>) {
    forall k :: 0 <= k < |fields| ==>
             fields[k] != [] && exists i :: 0 <= i < |files| && fields[k][0].key.file == files[i].path
  }

  /** Whatever the files hold: the reader gives every field once, and the fields of a series
      one after the other. */
  lemma {:induction false} AllTidy(names: seq<string>, files: seq<TsspFile>)
    requires Distinct(names) && DistinctSeries(files)
    ensures var fields := NonEmpty(AllFields(names, files)); OfFiles(files, fields) && Tidy(fields)
  {
    hide Tidy, MetaFields, ChunkFields, DistinctSids, Joined;
    if files == [] {
      NothingTidy();
    } else {
      var f, rest := files[0], files[1..];
      AllTidy(names, rest);
      FileTidy(f.path, names, Joined(f.metaIndexes));
      MetaIsChunks(f.path, names, f.metaIndexes);
      var fs: seq<seq<SeriesRecord>> := MetaFields(f.path, names, f.metaIndexes);
      var a: seq<seq<SeriesRecord>>, b: seq<seq<SeriesRecord>> := NonEmpty(fs), NonEmpty(AllFields(names, rest));
      NonEmptyConcat(fs, AllFields(names, rest));
      forall k | 0 <= k < |b|
        ensures b[k] != [] && b[k][0].key.file != f.path
        ensures exists i :: 0 <= i < |files| && b[k][0].key.file == files[i].path
      {
        var i :| 0 <= i < |rest| && b[k][0].key.file == rest[i].path;
        assert files[i + 1] == rest[i];
      }
      TidyConcat(a, b);
      forall k | 0 <= k < |a| ensures a[k] != [] && exists i :: 0 <= i < |files| && a[k][0].key.file == files[i].path {
        assert a[k][0].key.file == files[0].path;
      }
    }
  }
}

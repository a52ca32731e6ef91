/**
  What the reader of a down-sample task reads, by places: every segment that can be read
  gives one record, in the order of file, meta index, series, field and segment.
 */
module ReadingPlaces {
  import opened Options
  import opened DownSampleAggregator
  import opened DownSampleReader

  /** A place: the numbers that lead to it, from the outermost list inwards. */
  type Place = seq<nat>

  ghost predicate Before(a: Place, b: Place) {
    a != [] && b != [] && (a[0] < b[0] || (a[0] == b[0] && Before(a[1..], b[1..])))
  }

  /** Each record is the one at its place. */
  ghost predicate Found<T>(recs: seq<T>, places: seq<Place>, at: Place -> Option<T>, d: nat) {
    |places| == |recs| && forall j :: 0 <= j < |places| ==> |places[j]| == d && at(places[j]) == Some(recs[j])
  }

  ghost predicate Rise(places: seq<Place>) {
    forall i, j :: 0 <= i < j < |places| ==> Before(places[i], places[j])
  }

  ghost predicate NoneMissing<T>(places: seq<Place>, at: Place -> Option<T>, d: nat) {
    forall p: Place :: |p| == d && at(p).Some? ==> p in places
  }

  /** The records are those at the places of length `d` that have one, in order. */
  ghost predicate AtPlaces<T>(recs: seq<T>, places: seq<Place>, at: Place -> Option<T>, d: nat) {
    Found(recs, places, at, d) && Rise(places) && NoneMissing(places, at, d)
  }

  ghost predicate InOrder<T(!new)>(recs: seq<T>, at: Place -> Option<T>, d: nat) {
    exists places :: AtPlaces(recs, places, at, d)
  }

  lemma SamePlaces<T(!new)>(recs: seq<T>, at: Place -> Option<T>, bt: Place -> Option<T>, d: nat)
    requires InOrder(recs, at, d) && forall p: Place :: |p| == d ==> at(p) == bt(p)
    ensures InOrder(recs, bt, d)
  {
    var places :| AtPlaces(recs, places, at, d);
    assert AtPlaces(recs, places, bt, d);
  }

  /** The places inside the first `n` parts. */
  ghost function Inside<T>(ats: nat -> (Place -> Option<T>), n: nat): Place -> Option<T> {
    (p: Place) => if p == [] || p[0] >= n then None else ats(p[0])(p[1..])
  }

  ghost function Prefixed(i: nat, places: seq<Place>): seq<Place> {
    seq(|places|, j requires 0 <= j < |places| => [i] + places[j])
  }

  /** Parts that are in order give a whole that is in order. */
  lemma {:induction false} PartsInOrder<T(!new)>(parts: seq<seq<T>>, ats: nat -> (Place -> Option<T>), d: nat)
    requires forall i :: 0 <= i < |parts| ==> InOrder(parts[i], ats(i), d)
    ensures InOrder(Joined(parts), Inside(ats, |parts|), d + 1)
  {
    hide Rise, Found, NoneMissing, Inside, Prefixed, Joined, AtPlaces;
    var n := |parts|;
    if n == 0 {
      NothingAt(ats, d);
      assert AtPlaces<T>([], [], Inside(ats, 0), d + 1);
    } else {
      var init := parts[..n - 1];
      PartsInOrder(init, ats, d);
      var before :| AtPlaces(Joined(init), before, Inside(ats, n - 1), d + 1);
      var last :| AtPlaces(parts[n - 1], last, ats(n - 1), d);
      JoinedSnoc(init, parts[n - 1]);
      assert init + [parts[n - 1]] == parts;
      OnePart(Joined(init), parts[n - 1], before, last, ats, n - 1, d);
    }
  }

  lemma NothingAt<T(!new)>(ats: nat -> (Place -> Option<T>), d: nat)
    ensures AtPlaces<T>([], [], Inside(ats, 0), d + 1) && Joined<T>([]) == []
  {
  }

  lemma OnePart<T>(a: seq<T>, b: seq<T>, before: seq<Place>, last: seq<Place>, ats: nat -> (Place -> Option<T>), n: nat,
                   d: nat)
    requires AtPlaces(a, before, Inside(ats, n), d + 1) && AtPlaces(b, last, ats(n), d)
    ensures AtPlaces(a + b, before + Prefixed(n, last), Inside(ats, n + 1), d + 1)
  {
    hide Rise, Found, NoneMissing, Inside, Prefixed;
    PartsFound(a, b, before, last, ats, n, d);
    PartsRise(before, last, n, d);
    PartsMiss(before, last, ats, n, d);
  }

  lemma PartsFound<T>(a: seq<T>, b: seq<T>, before: seq<Place>, last: seq<Place>, ats: nat -> (Place -> Option<T>),
                      n: nat, d: nat)
    requires Found(a, before, Inside(ats, n), d + 1) && Found(b, last, ats(n), d)
    ensures Found(a + b, before + Prefixed(n, last), Inside(ats, n + 1), d + 1)
    ensures forall j :: 0 <= j < |before| ==> |before[j]| == d + 1 && before[j][0] < n
  {
    var more, at := Prefixed(n, last), Inside(ats, n + 1);
    forall j | 0 <= j < |before| ensures |before[j]| == d + 1 && before[j][0] < n && at(before[j]) == Some(a[j]) {
      assert Inside(ats, n)(before[j]) == Some(a[j]);
    }
    forall j | 0 <= j < |more| ensures |more[j]| == d + 1 && at(more[j]) == Some(b[j]) {
      assert more[j] == [n] + last[j] && more[j][1..] == last[j];
    }
  }

  lemma PartsMiss<T>(before: seq<Place>, last: seq<Place>, ats: nat -> (Place -> Option<T>), n: nat, d: nat)
    requires NoneMissing(before, Inside(ats, n), d + 1) && NoneMissing(last, ats(n), d)
    ensures NoneMissing(before + Prefixed(n, last), Inside(ats, n + 1), d + 1)
  {
    var more, at := Prefixed(n, last), Inside(ats, n + 1);
    forall p: Place | |p| == d + 1 && at(p).Some? ensures p in before + more {
      if p[0] < n {
        assert Inside(ats, n)(p) == at(p);
      } else {
        assert p[1..] in last;
        var j :| 0 <= j < |last| && last[j] == p[1..];
        assert p == [n] + p[1..] && more[j] == p;
      }
    }
  }

  lemma PartsRise(before: seq<Place>, last: seq<Place>, n: nat, d: nat)
    requires Rise(before) && Rise(last) && forall j :: 0 <= j < |before| ==> |before[j]| == d + 1 && before[j][0] < n
    ensures Rise(before + Prefixed(n, last))
  {
    var places := before + Prefixed(n, last);
    forall i, j | 0 <= i < j < |places| ensures Before(places[i], places[j]) {
      if i >= |before| {
        var k, l := i - |before|, j - |before|;
        assert places[i] == [n] + last[k] && places[j] == [n] + last[l];
        assert places[i][1..] == last[k] && places[j][1..] == last[l];
      } else if j >= |before| {
        assert places[j] == [n] + last[j - |before|];
      }
    }
  }

  function Single<T>(x: Option<T>): seq<T> {
    if x.None? then [] else [x.value]
  }

  /** At the end of a place: `x`. */
  ghost function Here<T>(x: Option<T>): Place -> Option<T> {
    (p: Place) => if p == [] then x else None
  }

  ghost function Nowhere<T>(): Place -> Option<T> {
    (p: Place) => None
  }

  lemma SingleInOrder<T(!new)>(x: Option<T>)
    ensures InOrder(Single(x), Here(x), 0)
  {
    var places: seq<Place> := if x.None? then [] else [[]];
    assert NoneMissing(places, Here(x), 0);
    assert AtPlaces(Single(x), places, Here(x), 0);
  }

  lemma NothingInOrder<T(!new)>(d: nat)
    ensures InOrder<T>([], Nowhere(), d)
  {
    assert AtPlaces<T>([], [], Nowhere(), d);
  }

  /** The record of a segment, if it can be read. */
  function CellRecord(key: Key, c: Chunk, cell: Option<seq<RawRow>>): Option<SeriesRecord> {
    if cell.None? then None else Some(SeriesRecord(key, c.trMin, c.trMax, cell.value))
  }

  ghost function AtCells(key: Key, c: Chunk, cells: seq<Option<seq<RawRow>>>): Place -> Option<SeriesRecord> {
    Inside((j: nat) => Here(if j < |cells| then CellRecord(key, c, cells[j]) else None), |cells|)
  }

  ghost function AtField(path: string, names: seq<string>, c: Chunk, f: nat): Place -> Option<SeriesRecord> {
    if f < |names| && f < |c.cells| then AtCells(Key(path, c.sid, names[f]), c, c.cells[f]) else Nowhere()
  }

  ghost function AtFields(path: string, names: seq<string>, c: Chunk): Place -> Option<SeriesRecord> {
    Inside((f: nat) => AtField(path, names, c, f), |names|)
  }

  ghost function AtChunk(path: string, names: seq<string>, chunks: seq<Chunk>, k: nat): Place -> Option<SeriesRecord> {
    if k < |chunks| then AtFields(path, names, chunks[k]) else Nowhere()
  }

  ghost function AtChunks(path: string, names: seq<string>, chunks: seq<Chunk>): Place -> Option<SeriesRecord> {
    Inside((k: nat) => AtChunk(path, names, chunks, k), |chunks|)
  }

  ghost function AtMeta(path: string, names: seq<string>, metas: seq<seq<Chunk>>, m: nat)
    : Place -> Option<SeriesRecord>
  {
    if m < |metas| then AtChunks(path, names, metas[m]) else Nowhere()
  }

  ghost function AtMetas(path: string, names: seq<string>, metas: seq<seq<Chunk>>): Place -> Option<SeriesRecord> {
    Inside((m: nat) => AtMeta(path, names, metas, m), |metas|)
  }

  ghost function AtFile(names: seq<string>, files: seq<TsspFile>, i: nat): Place -> Option<SeriesRecord> {
    if i < |files| then AtMetas(files[i].path, names, files[i].metaIndexes) else Nowhere()
  }

  ghost function AtFiles(names: seq<string>, files: seq<TsspFile>): Place -> Option<SeriesRecord> {
    Inside((i: nat) => AtFile(names, files, i), |files|)
  }

  ghost function CellParts(key: Key, c: Chunk, cells: seq<Option<seq<RawRow>>>): seq<seq<SeriesRecord>> {
    seq(|cells|, j requires 0 <= j < |cells| => Single(CellRecord(key, c, cells[j])))
  }

  lemma {:induction false} PresentParts(key: Key, c: Chunk, cells: seq<Option<seq<RawRow>>>)
    ensures Present(key, c, cells) == Joined(CellParts(key, c, cells))
  {
    if cells != [] {
      PresentParts(key, c, cells[1..]);
      var parts := CellParts(key, c, cells);
      assert parts[1..] == CellParts(key, c, cells[1..]) && parts[0] == Single(CellRecord(key, c, cells[0]));
    }
  }

  /** Every segment of a field that can be read gives one record, in their order. */
  lemma PresentInOrder(key: Key, c: Chunk, cells: seq<Option<seq<RawRow>>>)
    ensures InOrder(Present(key, c, cells), AtCells(key, c, cells), 1)
  {
    hide InOrder, Present, Joined, CellRecord;
    var ats := (j: nat) => Here(if j < |cells| then CellRecord(key, c, cells[j]) else None);
    PresentParts(key, c, cells);
    var parts: seq<seq<SeriesRecord>> := CellParts(key, c, cells);
    forall j | 0 <= j < |parts| ensures InOrder(parts[j], ats(j), 0) {
      SingleInOrder(CellRecord(key, c, cells[j]));
    }
    PartsInOrder(parts, ats, 0);
  }

  lemma {:induction false} FieldsAt(path: string, names: seq<string>, c: Chunk, f: nat)
    requires f <= |names|
    ensures var fs := Fields(path, names, c, f);
            |fs| == |names| - f && forall k :: 0 <= k < |fs| ==> fs[k] == FieldRecords(path, names, c, f + k)
    decreases |names| - f
  {
    hide FieldRecords;
    if f < |names| {
      FieldsAt(path, names, c, f + 1);
      var fs, rest := Fields(path, names, c, f), Fields(path, names, c, f + 1);
      forall k | 0 <= k < |fs| ensures fs[k] == FieldRecords(path, names, c, f + k) {
        assert k > 0 ==> fs[k] == rest[k - 1];
      }
    }
  }

  lemma FieldsInOrder(path: string, names: seq<string>, c: Chunk)
    ensures InOrder(Joined(Fields(path, names, c, 0)), AtFields(path, names, c), 2)
  {
    hide InOrder, Joined, Fields, AtCells, Present;
    FieldsAt(path, names, c, 0);
    var parts: seq<seq<SeriesRecord>> := Fields(path, names, c, 0);
    var ats := (f: nat) => AtField(path, names, c, f);
    forall f | 0 <= f < |parts| ensures InOrder(parts[f], ats(f), 1) {
      if f < |c.cells| {
        PresentInOrder(Key(path, c.sid, names[f]), c, c.cells[f]);
      } else {
        NothingInOrder<SeriesRecord>(1);
      }
    }
    PartsInOrder(parts, ats, 1);
  }

  ghost function ChunkParts(path: string, names: seq<string>, chunks: seq<Chunk>): seq<seq<SeriesRecord>> {
    seq(|chunks|, k requires 0 <= k < |chunks| => Joined(Fields(path, names, chunks[k], 0)))
  }

  lemma {:induction false} ChunksJoined(path: string, names: seq<string>, chunks: seq<Chunk>)
    ensures Joined(ChunkFields(path, names, chunks)) == Joined(ChunkParts(path, names, chunks))
  {
    hide Fields;
    if chunks != [] {
      ChunksJoined(path, names, chunks[1..]);
      JoinedConcat(Fields(path, names, chunks[0], 0), ChunkFields(path, names, chunks[1..]));
      assert ChunkParts(path, names, chunks)[1..] == ChunkParts(path, names, chunks[1..]);
    }
  }

  lemma ChunksInOrder(path: string, names: seq<string>, chunks: seq<Chunk>)
    ensures InOrder(Joined(ChunkFields(path, names, chunks)), AtChunks(path, names, chunks), 3)
  {
    hide InOrder, Joined, Fields, AtFields, ChunkFields;
    ChunksJoined(path, names, chunks);
    var parts: seq<seq<SeriesRecord>> := ChunkParts(path, names, chunks);
    var ats := (k: nat) => AtChunk(path, names, chunks, k);
    forall k | 0 <= k < |parts| ensures InOrder(parts[k], ats(k), 2) {
      FieldsInOrder(path, names, chunks[k]);
    }
    PartsInOrder(parts, ats, 2);
  }

  ghost function MetaParts(path: string, names: seq<string>, metas: seq<seq<Chunk>>): seq<seq<SeriesRecord>> {
    seq(|metas|, m requires 0 <= m < |metas| => Joined(ChunkFields(path, names, metas[m])))
  }

  lemma {:induction false} MetasJoined(path: string, names: seq<string>, metas: seq<seq<Chunk>>)
    ensures Joined(MetaFields(path, names, metas)) == Joined(MetaParts(path, names, metas))
  {
    hide ChunkFields;
    if metas != [] {
      MetasJoined(path, names, metas[1..]);
      JoinedConcat(ChunkFields(path, names, metas[0]), MetaFields(path, names, metas[1..]));
      assert MetaParts(path, names, metas)[1..] == MetaParts(path, names, metas[1..]);
    }
  }

  lemma MetasInOrder(path: string, names: seq<string>, metas: seq<seq<Chunk>>)
    ensures InOrder(Joined(MetaFields(path, names, metas)), AtMetas(path, names, metas), 4)
  {
    hide InOrder, Joined, ChunkFields, AtChunks, MetaFields;
    MetasJoined(path, names, metas);
    var parts: seq<seq<SeriesRecord>> := MetaParts(path, names, metas);
    var ats := (m: nat) => AtMeta(path, names, metas, m);
    forall m | 0 <= m < |parts| ensures InOrder(parts[m], ats(m), 3) {
      ChunksInOrder(path, names, metas[m]);
    }
    PartsInOrder(parts, ats, 3);
  }

  ghost function FileParts(names: seq<string>, files: seq<TsspFile>): seq<seq<SeriesRecord>> {
    seq(|files|, i requires 0 <= i < |files| => Joined(MetaFields(files[i].path, names, files[i].metaIndexes)))
  }

  lemma {:induction false} FilesJoined(names: seq<string>, files: seq<TsspFile>)
    ensures Joined(AllFields(names, files)) == Joined(FileParts(names, files))
  {
    hide MetaFields;
    if files != [] {
      FilesJoined(names, files[1..]);
      JoinedConcat(MetaFields(files[0].path, names, files[0].metaIndexes), AllFields(names, files[1..]));
      assert FileParts(names, files)[1..] == FileParts(names, files[1..]);
    }
  }

  lemma FilesInOrder(names: seq<string>, files: seq<TsspFile>)
    ensures InOrder(Joined(AllFields(names, files)), AtFiles(names, files), 5)
  {
    hide InOrder, Joined, MetaFields, AtMetas, AllFields;
    FilesJoined(names, files);
    var parts: seq<seq<SeriesRecord>> := FileParts(names, files);
    var ats := (i: nat) => AtFile(names, files, i);
    forall i | 0 <= i < |parts| ensures InOrder(parts[i], ats(i), 4) {
      MetasInOrder(files[i].path, names, files[i].metaIndexes);
    }
    PartsInOrder(parts, ats, 4);
  }

  /** A segment that can be read, by the numbers of its file, meta index, series, field and
      its own. */
  predicate Readable(names: seq<string>, files: seq<TsspFile>, p: Place) {
    && |p| == 5 && p[0] < |files|
    && var metas := files[p[0]].metaIndexes;
       && p[1] < |metas| && p[2] < |metas[p[1]]|
       && var c := metas[p[1]][p[2]];
          p[3] < |names| && p[3] < |c.cells| && p[4] < |c.cells[p[3]]| && c.cells[p[3]][p[4]].Some?
  }

  /** Its record: the rows as they are, with file, series id, field and time range. */
  function SegmentAt(names: seq<string>, files: seq<TsspFile>, p: Place): Option<SeriesRecord> {
    if !Readable(names, files, p) then None
    else
      var c := files[p[0]].metaIndexes[p[1]][p[2]];
      Some(SeriesRecord(Key(files[p[0]].path, c.sid, names[p[3]]), c.trMin, c.trMax, c.cells[p[3]][p[4]].value))
  }

  ghost function Segments(names: seq<string>, files: seq<TsspFile>): Place -> Option<SeriesRecord> {
    (p: Place) => SegmentAt(names, files, p)
  }

  lemma PlaceMeans(names: seq<string>, files: seq<TsspFile>, p: Place)
    requires |p| == 5
    ensures AtFiles(names, files)(p) == SegmentAt(names, files, p)
  {
    var q := p[1..];
    var r := q[1..];
    var s := r[1..];
    var t := s[1..];
    assert q[0] == p[1] && r[0] == p[2] && s[0] == p[3] && t[0] == p[4] && t[1..] == [];
  }

  /** The records read are the segments that can be read, each once and in order. */
  lemma ReadInOrder(names: seq<string>, files: seq<TsspFile>)
    ensures InOrder(Joined(AllFields(names, files)), Segments(names, files), 5)
  {
    hide InOrder, Joined, AllFields, AtFiles, SegmentAt;
    FilesInOrder(names, files);
    forall p: Place | |p| == 5 ensures AtFiles(names, files)(p) == Segments(names, files)(p) {
      PlaceMeans(names, files, p);
    }
    SamePlaces(Joined(AllFields(names, files)), AtFiles(names, files), Segments(names, files), 5);
  }
}

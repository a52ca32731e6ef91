/**
  What the result of a query is, said without the functions that compute it: the points
  are in time order, one for each step that is due and has a value, and the value of a
  point is related to the samples of its window, which are exactly the samples of the
  series inside the range of the step.
 */
module PromAnswers {
  import opened Multiples
  import opened Options
  import opened PromSteps
  import opened PromWindows
  import opened PromStreaming
  import opened StaleMarkers

  ghost predicate ReadIn(records: seq<Batch>, x: Sample) {
    exists k :: 0 <= k < |records| && x in records[k]
  }

  /** The samples of the records. */
  ghost function Samples(records: seq<Batch>): iset<Sample> {
    iset x: Sample | ReadIn(records, x)
  }

  /** Those that are no staleness markers. */
  ghost function Fresh(records: seq<Batch>): iset<Sample> {
    iset x: Sample | ReadIn(records, x) && !x.stale
  }

  /** In time order exactly the samples inside the range that ends at `s`. */
  ghost predicate IsWindow(q: Query, series: iset<Sample>, s: int, w: seq<Sample>) {
    Sorted(w) && forall x :: x in w <==> x in series && s - q.range <= x.time <= s
  }

  /** The step is on the grid, and it is not after the padding and every sample. */
  ghost predicate DueStep(q: Query, series: iset<Sample>, s: int) {
    q.OnGrid(s) && (s <= q.lastStep || exists x :: x in series && s <= StepOf(q, x.time))
  }

  /** `v` is the value of step `s`. */
  ghost predicate ValueFor<V>(q: Query, series: iset<Sample>, value: (seq<Sample>, V) -> bool, s: int, v: V) {
    exists w :: IsWindow(q, series, s, w) && value(w, v)
  }

  /** The answer to a query whose values are related to windows by `value`. */
  ghost predicate Answers<V(!new)>(q: Query, series: iset<Sample>, value: (seq<Sample>, V) -> bool,
                                   out: seq<Point<V>>) {
    && (forall i, j :: 0 <= i < j < |out| ==> out[i].ts < out[j].ts)
    && (forall i :: 0 <= i < |out| ==>
          DueStep(q, series, out[i].ts) && ValueFor(q, series, value, out[i].ts, out[i].value))
    && (forall s, v :: DueStep(q, series, s) && ValueFor(q, series, value, s, v) ==> Given(out, s))
  }

  lemma {:induction false} WindowMembers(xs: seq<Sample>, lo: int, hi: int)
    ensures forall x :: x in InWindow(xs, lo, hi) <==> x in xs && lo <= x.time <= hi
  {
    if xs != [] {
      WindowMembers(xs[1..], lo, hi);
      assert xs == [xs[0]] + xs[1..];
    }
  }

  lemma NoMembers(a: seq<Sample>)
    ensures a == [] <==> forall x :: x !in a
  {
    if a != [] {
      assert a[0] in a;
    }
  }

  lemma SameHead(a: seq<Sample>, b: seq<Sample>)
    requires a != [] && b != [] && Sorted(a) && Sorted(b) && a[0] in b && b[0] in a
    ensures a[0] == b[0]
  {
    var i :| 0 <= i < |b| && b[i] == a[0];
    var j :| 0 <= j < |a| && a[j] == b[0];
  }

  /** Sorted lists with the same members are the same. */
  lemma {:induction false} SortedUnique(a: seq<Sample>, b: seq<Sample>)
    requires Sorted(a) && Sorted(b) && forall x :: x in a <==> x in b
    ensures a == b
  {
    hide Sorted;
    NoMembers(a);
    NoMembers(b);
    if a != [] {
      assert a[0] in a && b[0] in b;
      SameHead(a, b);
      RestMembers(a, b);
      SortedUnique(a[1..], b[1..]);
      assert a == [a[0]] + a[1..] && b == [b[0]] + b[1..];
    }
  }

  lemma RestMembers(a: seq<Sample>, b: seq<Sample>)
    requires a != [] && b != [] && a[0] == b[0] && Sorted(a) && Sorted(b) && forall x :: x in a <==> x in b
    ensures forall x :: x in a[1..] <==> x in b[1..]
    ensures Sorted(a[1..]) && Sorted(b[1..])
  {
    forall x ensures x in a[1..] <==> x in b[1..] {
      assert x in a[1..] <==> x in a && x != a[0] by { RestOf(a, x); }
      assert x in b[1..] <==> x in b && x != b[0] by { RestOf(b, x); }
    }
  }

  lemma RestOf(a: seq<Sample>, x: Sample)
    requires a != [] && Sorted(a)
    ensures x in a[1..] <==> x in a && x != a[0]
  {
    assert a == [a[0]] + a[1..];
    if x in a[1..] {
      var i :| 0 <= i < |a[1..]| && a[1..][i] == x;
      assert a[0].time < a[i + 1].time;
    }
  }

  /** The window function finds the one window there is. */
  lemma WindowIsWindow(q: Query, series: iset<Sample>, xs: seq<Sample>, s: int, w: seq<Sample>)
    requires Sorted(xs) && forall x :: x in xs <==> x in series
    ensures IsWindow(q, series, s, Window(q, xs, s))
    ensures IsWindow(q, series, s, w) <==> w == Window(q, xs, s)
  {
    hide InWindow;
    WindowMembers(xs, s - q.range, s);
    WindowSorted(xs, s - q.range, s);
    if IsWindow(q, series, s, w) {
      SortedUnique(w, Window(q, xs, s));
    }
  }

  /** The points for the steps from `from` up to `till`, by what they say. */
  ghost predicate Lists<V>(q: Query, f: WindowFn<V>, xs: seq<Sample>, from: int, till: int, out: seq<Point<V>>) {
    && (forall i, j :: 0 <= i < j < |out| ==> out[i].ts < out[j].ts)
    && (forall i :: 0 <= i < |out| ==>
          && from <= out[i].ts <= till && Aligned(out[i].ts - from, q.step)
          && f(Window(q, xs, out[i].ts)) == Some(out[i].value))
    && (forall s :: from <= s <= till && Aligned(s - from, q.step) && f(Window(q, xs, s)).Some? ==> Given(out, s))
  }

  lemma AlignedNext(q: Query, from: int, s: int)
    requires from <= s
    ensures Aligned(s - from, q.step) <==> s == from || (from + q.step <= s && Aligned(s - (from + q.step), q.step))
  {
    assert s - (from + q.step) == s - from - q.step;
  }

  lemma ListsNext<V>(q: Query, f: WindowFn<V>, xs: seq<Sample>, from: int, till: int, out: seq<Point<V>>)
    requires from <= till && Lists(q, f, xs, from + q.step, till, out)
    ensures Lists(q, f, xs, from, till, PointAt(q, f, xs, from) + out)
  {
    hide InWindow, Aligned;
    var head := PointAt(q, f, xs, from);
    var all := head + out;
    forall i | 0 <= i < |all|
      ensures from <= all[i].ts <= till && Aligned(all[i].ts - from, q.step)
           && f(Window(q, xs, all[i].ts)) == Some(all[i].value)
    {
      AlignedNext(q, from, if i < |head| then from else out[i - |head|].ts);
    }
    forall s | from <= s <= till && Aligned(s - from, q.step) && f(Window(q, xs, s)).Some? ensures Given(all, s) {
      AlignedNext(q, from, s);
      if s == from {
        assert all[0].ts == s;
      } else {
        assert Given(out, s);
        var i :| 0 <= i < |out| && out[i].ts == s;
        assert all[|head| + i].ts == s;
      }
    }
  }

  lemma {:induction false} NaiveLists<V>(q: Query, f: WindowFn<V>, xs: seq<Sample>, from: int, till: int)
    ensures Lists(q, f, xs, from, till, Naive(q, f, xs, from, till))
    decreases till - from
  {
    hide InWindow, Aligned, PointAt, Lists;
    if from > till {
      NothingLists(q, f, xs, from, till);
    } else {
      NaiveLists(q, f, xs, from + q.step, till);
      ListsNext(q, f, xs, from, till, Naive(q, f, xs, from + q.step, till));
    }
  }

  lemma NothingLists<V>(q: Query, f: WindowFn<V>, xs: seq<Sample>, from: int, till: int)
    requires from > till
    ensures Lists(q, f, xs, from, till, [])
  {
  }

  /** The first step is listed first, and the rest is the list of the rest. */
  lemma ListsRest<V>(q: Query, f: WindowFn<V>, xs: seq<Sample>, from: int, till: int, out: seq<Point<V>>)
    returns (rest: seq<Point<V>>)
    requires from <= till && Lists(q, f, xs, from, till, out)
    ensures out == PointAt(q, f, xs, from) + rest && Lists(q, f, xs, from + q.step, till, rest)
  {
    hide InWindow, Aligned;
    var n := |PointAt(q, f, xs, from)|;
    AlignedHere(q, from);
    if n == 1 {
      assert Given(out, from);
      var i :| 0 <= i < |out| && out[i].ts == from;
      assert out[0].ts == from;
    }
    rest := out[n..];
    assert out == out[..n] + rest;
    ListsDrop(q, f, xs, from, till, out, n);
  }

  lemma ListsDrop<V>(q: Query, f: WindowFn<V>, xs: seq<Sample>, from: int, till: int, out: seq<Point<V>>, n: nat)
    requires from <= till && Lists(q, f, xs, from, till, out) && n <= |out|
    requires n == (if f(Window(q, xs, from)).Some? then 1 else 0) && (n == 1 ==> out[0].ts == from)
    ensures Lists(q, f, xs, from + q.step, till, out[n..])
  {
    hide Window, Aligned;
    var rest := out[n..];
    forall i | 0 <= i < |rest|
      ensures from + q.step <= rest[i].ts <= till && Aligned(rest[i].ts - (from + q.step), q.step)
           && f(Window(q, xs, rest[i].ts)) == Some(rest[i].value)
    {
      assert rest[i] == out[n + i];
      assert n == 1 ==> out[0].ts < out[n + i].ts;
      AlignedNext(q, from, rest[i].ts);
    }
    forall s | from + q.step <= s <= till && Aligned(s - (from + q.step), q.step) && f(Window(q, xs, s)).Some?
      ensures Given(rest, s)
    {
      AlignedNext(q, from, s);
      GivenLater(out, n, s);
    }
  }

  lemma GivenLater<V>(out: seq<Point<V>>, n: nat, s: int)
    requires n <= |out| && n <= 1 && Given(out, s) && (n == 1 ==> out[0].ts < s)
    ensures Given(out[n..], s)
  {
    var i :| 0 <= i < |out| && out[i].ts == s;
    assert out[n..][i - n].ts == s;
  }

  lemma AlignedHere(q: Query, from: int)
    ensures Aligned(from - from, q.step)
  {
  }

  lemma ListsSome<V>(q: Query, f: WindowFn<V>, xs: seq<Sample>, from: int, till: int, out: seq<Point<V>>)
    ensures Lists(q, f, xs, from, till, out) && out != [] ==> from <= till
  {
    if Lists(q, f, xs, from, till, out) && out != [] {
      assert from <= out[0].ts <= till;
    }
  }

  /** There is one list. */
  lemma {:induction false} ListsUnique<V>(q: Query, f: WindowFn<V>, xs: seq<Sample>, from: int, till: int,
                                          out: seq<Point<V>>)
    requires Lists(q, f, xs, from, till, out)
    ensures out == Naive(q, f, xs, from, till)
    decreases till - from
  {
    hide InWindow, Aligned, PointAt;
    ListsSome(q, f, xs, from, till, out);
    if from <= till {
      var rest := ListsRest(q, f, xs, from, till, out);
      ListsUnique(q, f, xs, from + q.step, till, rest);
    }
  }

  /** For samples in time order the steps due are those up to the step of the last one. */
  lemma DueTill(q: Query, series: iset<Sample>, xs: seq<Sample>, s: int)
    requires xs != [] && Sorted(xs) && forall x :: x in xs <==> x in series
    ensures DueStep(q, series, s) <==> q.OnGrid(s) && s <= Max(LastStep(q, xs), q.lastStep)
  {
    hide StepOf;
    var last := xs[|xs| - 1];
    assert last in series;
    forall x | x in series ensures StepOf(q, x.time) <= StepOf(q, last.time) {
      var i :| 0 <= i < |xs| && xs[i] == x;
      StepMonotone(q, x.time, last.time);
    }
  }

  /** An answer is the same as a list of points over the whole grid. */
  lemma AnswerIsList<V(!new)>(q: Query, f: WindowFn<V>, value: (seq<Sample>, V) -> bool, series: iset<Sample>,
                              xs: seq<Sample>, out: seq<Point<V>>)
    requires xs != [] && Sorted(xs) && Computes(f, value) && forall x :: x in xs <==> x in series
    ensures Answers(q, series, value, out)
       <==> Lists(q, f, xs, q.startSample, Max(LastStep(q, xs), q.lastStep), out)
  {
    hide Window, StepOf, Aligned, LastStep, Given;
    var till := Max(LastStep(q, xs), q.lastStep);
    forall s ensures DueStep(q, series, s) <==> q.startSample <= s <= till && Aligned(s - q.startSample, q.step) {
      DueTill(q, series, xs, s);
      TillOnGrid(q, xs, s);
    }
    hide DueStep, Computes, ValueFor;
    forall i | 0 <= i < |out|
      ensures ValueFor(q, series, value, out[i].ts, out[i].value)
         <==> f(Window(q, xs, out[i].ts)) == Some(out[i].value)
    {
      ValueAt(q, f, value, series, xs, out[i].ts, out[i].value);
    }
    if Lists(q, f, xs, q.startSample, till, out) {
      forall s, v | DueStep(q, series, s) && ValueFor(q, series, value, s, v) ensures Given(out, s) {
        ValueAt(q, f, value, series, xs, s, v);
      }
      forall i | 0 <= i < |out| ensures DueStep(q, series, out[i].ts) {
        assert q.startSample <= out[i].ts <= till;
      }
      assert Answers(q, series, value, out);
    }
    if Answers(q, series, value, out) {
      forall s | q.startSample <= s <= till && Aligned(s - q.startSample, q.step) && f(Window(q, xs, s)).Some?
        ensures Given(out, s)
      {
        ValueAt(q, f, value, series, xs, s, f(Window(q, xs, s)).value);
      }
      forall i | 0 <= i < |out|
        ensures q.startSample <= out[i].ts <= till && Aligned(out[i].ts - q.startSample, q.step)
      {
        assert DueStep(q, series, out[i].ts);
      }
      assert Lists(q, f, xs, q.startSample, till, out);
    }
  }

  lemma TillOnGrid(q: Query, xs: seq<Sample>, s: int)
    requires xs != []
    ensures q.OnGrid(s) && s <= Max(LastStep(q, xs), q.lastStep)
       <==> q.startSample <= s <= Max(LastStep(q, xs), q.lastStep) && Aligned(s - q.startSample, q.step)
  {
  }

  lemma ValueAt<V(!new)>(q: Query, f: WindowFn<V>, value: (seq<Sample>, V) -> bool, series: iset<Sample>,
                         xs: seq<Sample>, s: int, v: V)
    requires Sorted(xs) && Computes(f, value) && forall x :: x in xs <==> x in series
    ensures ValueFor(q, series, value, s, v) <==> f(Window(q, xs, s)) == Some(v)
  {
    hide Window, IsWindow;
    var w := Window(q, xs, s);
    WindowIsWindow(q, series, xs, s, w);
    SortedWindow(q, series, s, w);
    forall u | IsWindow(q, series, s, u) ensures u == w {
      WindowIsWindow(q, series, xs, s, u);
    }
  }

  lemma SortedWindow(q: Query, series: iset<Sample>, s: int, w: seq<Sample>)
    requires IsWindow(q, series, s, w)
    ensures Sorted(w)
  {
  }

  lemma {:induction false} FlatMembers(bs: seq<Batch>, x: Sample)
    ensures x in Flat(bs) <==> exists k :: 0 <= k < |bs| && x in bs[k]
  {
    if bs != [] {
      var n := |bs| - 1;
      FlatMembers(bs[..n], x);
      assert forall k :: 0 <= k < n ==> bs[..n][k] == bs[k];
    }
  }

  lemma {:induction false} NotStaleMembers(rec: Batch, x: Sample)
    ensures x in NotStale(rec) <==> x in rec && !x.stale
  {
    if rec != [] {
      var n := |rec| - 1;
      NotStaleMembers(rec[..n], x);
      assert rec == rec[..n] + [rec[n]];
    }
  }

  /** The samples the reducers see are those that are no markers. */
  lemma FilteredIsFresh(records: seq<Batch>, x: Sample)
    ensures x in Flat(Filtered(records)) <==> x in Fresh(records)
  {
    hide NotStale, Flat;
    var bs := Filtered(records);
    FlatMembers(bs, x);
    forall k | 0 <= k < |records| ensures x in bs[k] <==> x in records[k] && !x.stale {
      NotStaleMembers(records[k], x);
    }
    if x in Fresh(records) {
      var k :| 0 <= k < |records| && x in records[k];
      assert x in bs[k];
    }
  }

  lemma LastOfFlat(q: Query, bs: seq<Batch>)
    requires bs != [] && bs[|bs| - 1] != []
    ensures Flat(bs) != [] && LastStep(q, Flat(bs)) == LastStep(q, bs[|bs| - 1])
  {
  }

  /** A result is the reference if and only if it is the answer. */
  lemma ExpectedIsAnswer<V(!new)>(q: Query, f: WindowFn<V>, value: (seq<Sample>, V) -> bool, series: iset<Sample>,
                                  bs: seq<Batch>, out: seq<Point<V>>)
    requires ValidSeries(q, bs) && bs != [] && Computes(f, value) && forall x :: x in Flat(bs) <==> x in series
    ensures out == Expected(q, f, bs) <==> Answers(q, series, value, out)
  {
    hide Naive, Answers, Lists, Computes, LastStep, Flat;
    var xs := Flat(bs);
    LastOfFlat(q, bs);
    var till := Max(LastStep(q, xs), q.lastStep);
    AnswerIsList(q, f, value, series, xs, out);
    NaiveLists(q, f, xs, q.startSample, till);
    if Lists(q, f, xs, q.startSample, till, out) {
      ListsUnique(q, f, xs, q.startSample, till, out);
    }
  }

  /** The same for records with markers. */
  lemma RecordsAnswer<V(!new)>(q: Query, f: WindowFn<V>, value: (seq<Sample>, V) -> bool, records: seq<Batch>,
                               out: seq<Point<V>>)
    requires ValidRecords(q, records) && records != [] && Computes(f, value)
    ensures out == Expected(q, f, Filtered(records)) <==> Answers(q, Fresh(records), value, out)
  {
    hide Expected, Answers, Computes, Flat, NotStale, Fresh, ValidSamples, Sorted;
    forall x ensures x in Flat(Filtered(records)) <==> x in Fresh(records) {
      FilteredIsFresh(records, x);
    }
    ExpectedIsAnswer(q, f, value, Fresh(records), Filtered(records), out);
  }

  /** And for records of which markers are samples like others. */
  lemma BatchesAnswer<V(!new)>(q: Query, f: WindowFn<V>, value: (seq<Sample>, V) -> bool, bs: seq<Batch>,
                               out: seq<Point<V>>)
    requires ValidSeries(q, bs) && bs != [] && Computes(f, value)
    ensures out == Expected(q, f, bs) <==> Answers(q, Samples(bs), value, out)
  {
    hide Expected, Answers, Computes, Flat, ValidSeries;
    forall x ensures x in Flat(bs) <==> x in Samples(bs) {
      FlatMembers(bs, x);
    }
    ExpectedIsAnswer(q, f, value, Samples(bs), bs, out);
  }
}

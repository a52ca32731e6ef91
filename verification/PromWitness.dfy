/**
  Concrete series for which the streaming evaluation differs from the reference.
 */
module PromWitness {
  import opened Multiples
  import opened PromSteps
  import opened PromWindows
  import opened PromStreaming
  import opened StaleMarkers
  import opened CarriedPoints
  import SliceReducer
  import IncReducer
  import RateRuns
  import InstantRate
  import OverTime
  import VectorCursor
  import InstantSampler

  function At(t: int): Sample {
    Sample(t, 1.0, false)
  }

  function Alone(t: int): Batch {
    [At(t)]
  }

  /** Records without markers, so that the look at the next record is right. */
  ghost predicate Seamless(q: Query, bs: seq<Batch>) {
    ValidRecords(q, bs) && Filtered(bs) == bs && LooksThrough(q, bs)
  }

  lemma ThreeAlone(q: Query, bs: seq<Batch>, a: int, b: int, c: int)
    requires bs == [Alone(a), Alone(b), Alone(c)] && q.startSample - q.range <= a < b < c
    ensures ValidSeries(q, bs) && Flat(bs) == [At(a), At(b), At(c)]
    ensures Seamless(q, bs)
  {
    hide Flat, LooksThrough, NotStale;
    AllFresh(q, bs);
    FlatOfThree(bs);
    assert Flat(bs) == [At(a), At(b), At(c)];
  }

  lemma OnGridHere(q: Query, s: int)
    requires q == Query(100, 200, 10, 30, 200) && s in {100, 110, 130, 150, 200}
    ensures q.OnGrid(s)
  {
    AlignedMultiple((s - 100) / 10, 10);
  }

  /** A batch with a single step that goes on in the next batch: the steps before it are
      lost by all three reducers, although the sample at 100 is in their windows. */
  lemma GapIsLost(q: Query, bs: seq<Batch>)
    requires q == Query(100, 200, 10, 30, 200) && bs == [Alone(100), Alone(125), Alone(128)]
    ensures Seamless(q, bs)
    ensures DropsGap(q, bs, 1) && InstantSampler.DropsGap(q, bs, 1)
  {
    ThreeAlone(q, bs, 100, 125, 128);
    hide StepOf, Aligned;
    OnGridHere(q, 100);
    OnGridHere(q, 130);
    StepUnique(q, 100, 100);
    StepUnique(q, 125, 130);
    StepUnique(q, 128, 130);
  }

  /** A batch that ends after the last step and is not the last one: sampling loses the
      last step, although the sample at 190 is in its window. */
  lemma FinalIsLost(q: Query, bs: seq<Batch>)
    requires q == Query(100, 200, 10, 30, 200) && bs == [Alone(190), Alone(205), Alone(208)]
    ensures Seamless(q, bs) && InstantSampler.DropsFinal(q, bs)
  {
    ThreeAlone(q, bs, 190, 205, 208);
    WindowOfOne(q, [At(190), At(205), At(208)]);
  }

  lemma WindowOfOne(q: Query, xs: seq<Sample>)
    requires q == Query(100, 200, 10, 30, 200) && xs == [At(190), At(205), At(208)]
    ensures Window(q, xs, 200) == [At(190)]
  {
    var rest := xs[1..];
    assert rest == [At(205), At(208)] && rest[1..] == [At(208)] && rest[1..][1..] == [];
    assert InWindow(rest[1..], 170, 200) == [];
    assert InWindow(rest, 170, 200) == [];
  }

  /** A query close to the epoch: the padding after the last batch takes a position in
      the buffer for a time, and the sample at 0 is missing from the window [0, 20]. */
  lemma PositionTakenForTime(q: Query, bs: seq<Batch>)
    requires q == Query(0, 20, 10, 20, 20) && bs == [Alone(0), Alone(5)]
    ensures Seamless(q, bs) && SliceReducer.ConfusesAfter(q, SliceReducer.KeptForLast(q, bs), bs[1])
  {
    hide Flat, NotStale, LooksThrough, StepOf;
    FlatOfTwo(bs);
    assert Flat(bs) == [At(0), At(5)];
    AllFresh(q, bs);
    ConfusedTail(q, bs);
  }

  lemma ConfusedTail(q: Query, bs: seq<Batch>)
    requires q == Query(0, 20, 10, 20, 20) && bs == [Alone(0), Alone(5)] && ValidSeries(q, bs)
          && Flat(bs[..1]) == [At(0)]
    ensures SliceReducer.ConfusesAfter(q, SliceReducer.KeptForLast(q, bs), bs[1])
  {
    AlignedMultiple(1, 10);
    hide StepOf, Aligned, Flat, From, ValidSamples;
    StepUnique(q, 0, 0);
    StepUnique(q, 5, 10);
    FromCut([At(0)], -10, 0);
    assert [At(0)][0..] == [At(0)];
    assert SliceReducer.KeptForLast(q, bs) == [At(0)];
    assert SliceReducer.ConfusesIndex(q, [At(0)], 0, 20);
  }

  /** A step that goes on in a batch after the last step: the previous point of the
      incremental reducer is never given, although it is due, and neither is the change
      between the samples at 194 and 195. */
  lemma CarriedPointIsLost(q: Query, bs: seq<Batch>)
    requires q == Query(100, 200, 10, 30, 200) && bs == [Alone(194), Alone(195), Alone(205)]
    ensures Seamless(q, bs) && IncReducer.DropsFinal(q, bs) && RateRuns.DropsFinal(q, bs)
  {
    ThreeAlone(q, bs, 194, 195, 205);
    GoesOnLate(q, bs);
  }

  lemma GoesOnLate(q: Query, bs: seq<Batch>)
    requires q == Query(100, 200, 10, 30, 200) && bs == [Alone(194), Alone(195), Alone(205)]
    requires ValidSeries(q, bs) && Flat(bs) == [At(194), At(195), At(205)]
    ensures IncReducer.DropsFinal(q, bs) && RateRuns.DropsFinal(q, bs)
  {
    hide StepOf, Aligned, InWindow, Flat, Held, ValidSamples;
    WindowOfTwo(q, Flat(bs));
    OnGridHere(q, 200);
    StepUnique(q, 195, 200);
    StepUnique(q, 205, 200);
    IncReducer.FinalCases(q, bs);
    LateSteps(q, bs, 2);
    assert bs[..3] == bs;
  }

  lemma FirstAlone(bs: seq<Batch>, t: int)
    requires bs != [] && bs[0] == Alone(t)
    ensures Flat(bs[..1]) == [At(t)]
  {
    assert bs[..1] == [Alone(t)] && bs[..1][..0] == [];
  }

  /** Two batches after the last step and nothing in its window: the incremental reducer
      makes up a point. */
  lemma PointIsMadeUp(q: Query, bs: seq<Batch>)
    requires q == Query(100, 200, 10, 30, 200) && bs == [Alone(150), Alone(205), Alone(207)]
    ensures Seamless(q, bs) && IncReducer.Spurious(q, bs, 2)
  {
    hide StepOf, Aligned, InWindow, Flat, Held, NotStale, ValidSamples;
    ThreeAlone(q, bs, 150, 205, 207);
    FirstAlone(bs, 150);
    WindowNone(Flat(bs), 170, 200);
    IncReducer.FinalCases(q, bs);
    LateSteps(q, bs, 2);
    assert bs[..3] == bs;
  }

  lemma WindowOfTwo(q: Query, xs: seq<Sample>)
    requires q == Query(100, 200, 10, 30, 200) && xs == [At(194), At(195), At(205)]
    ensures Window(q, xs, 200) == [At(194), At(195)]
  {
    var rest := xs[1..];
    assert rest == [At(195), At(205)] && rest[1..] == [At(205)] && rest[1..][1..] == [];
    assert InWindow(rest[1..], 170, 200) == [];
    assert InWindow(rest, 170, 200) == [At(195)];
  }

  /** The same as `GapIsLost` for the change between the samples at 99 and 100. */
  lemma PairIsLost(q: Query, bs: seq<Batch>)
    requires q == Query(100, 200, 10, 30, 200) && bs == [[At(99), At(100)], Alone(125), Alone(128)]
    ensures Seamless(q, bs) && RateRuns.DropsPairs(q, bs, 1)
  {
    PairFirst(q, bs);
    hide StepOf, Aligned, Flat;
    OnGridHere(q, 100);
    OnGridHere(q, 130);
    StepUnique(q, 100, 100);
    StepUnique(q, 125, 130);
    StepUnique(q, 128, 130);
  }

  lemma PairFirst(q: Query, bs: seq<Batch>)
    requires q.startSample - q.range <= 99 && bs == [[At(99), At(100)], Alone(125), Alone(128)]
    ensures Seamless(q, bs) && Flat(bs[..1]) == [At(99), At(100)]
  {
    hide Flat, LooksThrough, NotStale;
    AllFresh(q, bs);
    FlatOfThree(bs);
  }

  lemma AllFresh(q: Query, bs: seq<Batch>)
    requires forall k :: 0 <= k < |bs| ==> bs[k] != [] && forall i :: 0 <= i < |bs[k]| ==> !bs[k][i].stale
    ensures LooksThrough(q, bs) && Filtered(bs) == bs
  {
    hide NotStale, SeenThrough;
    forall k | 0 <= k < |bs| ensures NotStale(bs[k]) == bs[k] {
      NothingStale(bs[k]);
    }
    forall k | 0 <= k < |bs| - 1 ensures SeenThrough(q, bs[k], bs[k + 1]) {
      FreshMeeting(q, bs[k], bs[k + 1]);
    }
  }

  lemma FlatOfThree(bs: seq<Batch>)
    requires |bs| == 3
    ensures Flat(bs[..1]) == bs[0] && Flat(bs) == bs[0] + bs[1] + bs[2]
  {
    hide Flat;
    NothingFlat(bs);
    FlatStep(bs, 0);
    FlatStep(bs, 1);
    FlatStep(bs, 2);
    assert bs[..3] == bs;
  }

  function Marker(t: int): Sample {
    Sample(t, 0.0, true)
  }

  lemma FlatOfTwo(bs: seq<Batch>)
    requires |bs| == 2
    ensures Flat(bs[..1]) == bs[0] && Flat(bs) == bs[0] + bs[1]
  {
    hide Flat;
    NothingFlat(bs);
    FlatStep(bs, 0);
    FlatStep(bs, 1);
    assert bs[..2] == bs;
  }

  /** Two records, the first with a marker after its rows and the second perhaps with one
      before them. */
  lemma MarkedRecords(q: Query, records: seq<Batch>, a: Batch, front: Batch, b: Batch, t: int)
    requires records == [a + [Marker(t)], front + b] && |a| > 0 && |b| > 0 && (front == [] || front == [Marker(108)])
    requires forall k :: 0 <= k < |a| ==> !a[k].stale
    requires forall k :: 0 <= k < |b| ==> !b[k].stale
    requires Sorted(a + [Marker(t)] + (front + b)) && q.startSample - q.range <= a[0].time && |a| < 10 && |b| < 10
    ensures ValidRecords(q, records) && Filtered(records) == [a, b] && Flat([a, b][..1]) == a && Flat([a, b]) == a + b
  {
    hide Flat, NotStale;
    NothingStale(a);
    NothingStale(b);
    MarkerGoes(a, t);
    if front == [] {
      assert front + b == b;
    } else {
      MarkerFirst(b);
    }
    assert Filtered(records) == [a, b];
    FlatOfTwo(records);
    FlatOfTwo([a, b]);
    var xs := a + [Marker(t)] + (front + b);
    forall i | 0 <= i < |a + b| ensures (a + b)[i] == xs[if i < |a| then i else i + 1 + |front|] {
    }
    assert Sorted(a + b);
    assert a[0] == (a + b)[0];
  }

  lemma MarkerGoes(a: Batch, t: int)
    ensures NotStale(a + [Marker(t)]) == NotStale(a)
  {
    assert (a + [Marker(t)])[..|a|] == a;
  }

  lemma MarkerFirst(b: Batch)
    ensures NotStale([Marker(108)] + b) == NotStale(b)
  {
    NotStaleConcat([Marker(108)], b);
    MarkerGoes([], 108);
    assert [] + [Marker(108)] == [Marker(108)] && NotStale([]) == [];
  }

  lemma MarkerSteps(q: Query)
    requires q == Query(100, 200, 10, 30, 200)
    ensures StepOf(q, 99) == 100 && StepOf(q, 100) == 100 && StepOf(q, 105) == 110 && StepOf(q, 108) == 110
  {
    hide StepOf, Aligned;
    OnGridHere(q, 100);
    OnGridHere(q, 110);
    StepUnique(q, 99, 100);
    StepUnique(q, 100, 100);
    StepUnique(q, 105, 110);
    StepUnique(q, 108, 110);
  }

  /** A staleness marker at the end of a record: by the rows as they were read the step
      of the marker goes on in the next record, but it is not a step of the batch. */
  lemma MarkerMisleads(q: Query, records: seq<Batch>)
    requires q == Query(100, 200, 10, 30, 200) && records == [[At(100), Marker(105)], Alone(108)]
    ensures ValidRecords(q, records) && Misled(q, records, 0) && !LooksThrough(q, records)
  {
    hide StepOf, Aligned, NotStale, Flat, LooksThrough;
    var a, b := [At(100)], Alone(108);
    assert a + [Marker(105)] == [At(100), Marker(105)] && [] + b == b;
    MarkedRecords(q, records, a, [], b, 105);
    MarkerSteps(q);
    RightLook(q, records);
  }

  /** The step at 100 is lost by the slice reducer and by the incremental one. */
  method MarkerLosesStep(q: Query, records: seq<Batch>, fn: OverTime.OverTimeFn)
    returns (calls: seq<Point<SliceReducer.Call>>, values: seq<Point<real>>)
    requires q == Query(100, 200, 10, 30, 200) && records == [[At(100), Marker(105)], Alone(108)]
    ensures ValidRecords(q, records)
    ensures calls != Expected(q, SliceReducer.CallOf, Filtered(records))
    ensures values != Expected(q, OverTime.AggOf(fn), Filtered(records))
  {
    hide *;
    MarkerMisleads(q, records);
    calls := SliceReducer.Evaluate(q, records);
    values := IncReducer.Evaluate(fn, q, records);
  }

  /** After the sample at 100 a last record of markers only: the incremental reducer gives
      points for 10, 20 and so on, steps before the first one of the query. */
  method OnlyMarkersLeft(q: Query, fn: OverTime.OverTimeFn) returns (out: seq<Point<real>>)
    requires q == Query(100, 200, 10, 30, 200)
    ensures Given(out, 10) && 10 < q.startSample
    ensures ValidSeries(q, [[At(100)]]) && out != Expected(q, OverTime.AggOf(fn), [[At(100)]])
  {
    hide StepOf, Aligned, Flat, NotStale, From, Naive, IncReducer.PaddedSteps;
    var r := new IncReducer.IncReducer(fn);
    var b := [At(100)];
    ghost var none: seq<Sample> := [];
    assert none + b == b && r.Ready(q, none, false, false);
    MarkerSteps(q);
    var firstStep, index, n := VectorCursor.GetIntervalIndex(q, b);
    ghost var value;
    out, value := r.Aggregate(q, b, firstStep, index, false, false, none, false, false, Timely, 0);
    FromCut(b, 80, 0);
    assert b[0..] == b && r.ringBuf.samples == b;
    var tail := r.AggregateNothing(q, true);
    FirstPadded(q, b, tail);
    OneSample(q, [b]);
    IncReducer.MarkersLast(q, OverTime.AggOf(fn), [b], b, out, tail);
    GivenTail(out, tail, 10);
    out := out + tail;
  }

  lemma OneSample(q: Query, bs: seq<Batch>)
    requires q == Query(100, 200, 10, 30, 200) && bs == [[At(100)]]
    ensures ValidSeries(q, bs)
  {
    hide StepOf;
    assert bs[1..] == [] && Flat(bs) == [At(100)];
  }

  lemma FirstPadded(q: Query, kept: seq<Sample>, tail: seq<Point<real>>)
    requires q.step == 10 <= q.lastStep && q.range == 30 && kept == [At(100)]
          && IncReducer.Stamps(tail) == IncReducer.PaddedSteps(q, kept, 10)
    ensures tail != [] && tail[0].ts == 10
  {
    assert IncReducer.Stamps(tail)[0] == 10;
  }

  lemma GivenTail(out: seq<Point<real>>, tail: seq<Point<real>>, s: int)
    requires tail != [] && tail[0].ts == s
    ensures Given(out + tail, s)
  {
    assert (out + tail)[|out|] == tail[0];
  }

  /** For irate it is lost if there are two samples in its window. */
  lemma MarkerLosesPair(q: Query, records: seq<Batch>)
    requires q == Query(100, 200, 10, 30, 200) && records == [[At(99), At(100), Marker(105)], Alone(108)]
    ensures ValidRecords(q, records) && RateRuns.LosesPair(q, records, 0)
  {
    hide StepOf, Aligned, NotStale, Flat, InWindow;
    var a, b := [At(99), At(100)], Alone(108);
    assert a + [Marker(105)] == [At(99), At(100), Marker(105)] && [] + b == b;
    MarkedRecords(q, records, a, [], b, 105);
    MarkerSteps(q);
    WindowAll(a, 70, 100);
  }

  /** A change is made up between the samples at 100 and 145, although only the second is
      in the window of the step at 150. */
  lemma MarkerMakesUp(q: Query, records: seq<Batch>)
    requires q == Query(100, 200, 10, 30, 200) && records == [[At(100), Marker(105)], [Marker(108), At(145)]]
    ensures ValidRecords(q, records) && RateRuns.MakesUp(q, records, 1)
  {
    hide StepOf, Aligned, NotStale, Flat, InWindow;
    var a, b := [At(100)], [At(145)];
    assert a + [Marker(105)] == [At(100), Marker(105)] && [Marker(108)] + b == [Marker(108), At(145)];
    MarkedRecords(q, records, a, [Marker(108)], b, 105);
    MarkerSteps(q);
    OnGridHere(q, 150);
    StepUnique(q, 145, 150);
    WindowNone(a, 120, 150);
    WindowAll(b, 120, 150);
    WindowConcat(a, b, 120, 150);
    assert [a, b][..2] == [a, b];
  }

  /** The reducer of irate gets both wrong. */
  method MarkersAndRates(q: Query, isRate: bool, first: seq<Batch>, second: seq<Batch>)
    returns (lost: seq<Point<real>>, madeUp: seq<Point<real>>)
    requires q == Query(100, 200, 10, 30, 200)
    requires first == [[At(99), At(100), Marker(105)], Alone(108)]
          && second == [[At(100), Marker(105)], [Marker(108), At(145)]]
    ensures ValidRecords(q, first) && lost != Expected(q, InstantRate.IRateOf(isRate), Filtered(first))
    ensures ValidRecords(q, second) && madeUp != Expected(q, InstantRate.IRateOf(isRate), Filtered(second))
  {
    hide *;
    MarkerLosesPair(q, first);
    MarkerMakesUp(q, second);
    NotSound(q, first, 0);
    NotSound(q, second, 1);
    lost := RateRuns.Evaluate(isRate, q, first);
    madeUp := RateRuns.Evaluate(isRate, q, second);
  }

  lemma NotSound(q: Query, records: seq<Batch>, k: nat)
    requires ValidRecords(q, records) && k < |records|
          && (RateRuns.LosesPair(q, records, k) || RateRuns.MakesUp(q, records, k))
    ensures !RateRuns.Sound(q, records, |records|)
  {
    hide RateRuns.LosesPair, RateRuns.MakesUp, RateRuns.BlindDrop, NotStale, Flat, ValidSamples, Sorted;
    assert RateRuns.Faulty(q, records, k);
  }
}

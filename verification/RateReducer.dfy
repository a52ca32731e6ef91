/**
  The reducer behind irate and idelta. The step that goes on in the next batch is
  carried as its last two samples, and every batching gives at each step the change
  between the last two samples of the whole window.
 */
module RateReducer {
  import opened Multiples
  import opened Options
  import opened PromSteps
  import opened PromWindows
  import opened PromStreaming
  import opened VectorCursor
  import opened CarriedPoints
  import opened InstantRate

  datatype FloatPoint = FloatPoint(time: int, value: real, count: int, isNil: bool)

  const NO_POINT := FloatPoint(0, 0.0, 0, true)

  /** The point of a step, if there is a value. */
  function Emit(ts: int, v: Option<real>): seq<Point<real>> {
    if v.None? then [] else [Point(ts, v.value)]
  }

  /** The two previous points together. */
  datatype Prev = Prev(isNil: bool, ends: Ends, count: int)

  /** They are the last two samples of `w`. */
  ghost predicate Holding(p: Prev, w: seq<Sample>) {
    !p.isNil && w != [] && p.ends == LastTwo(w) && p.count == |w|
  }

  class RateReducer {
    const isRate: bool
    var prevStep: int
    // the two previous points
    var first: FloatPoint
    var last: FloatPoint
    const ringBuf: FloatBuffer

    constructor (isRate: bool)
      ensures this.isRate == isRate && fresh(ringBuf) && forall q: Query :: Ready(q, [], false, false, [])
    {
      this.isRate := isRate;
      prevStep := 0;
      first, last := NO_POINT, NO_POINT;
      ringBuf := new FloatBuffer();
    }

    ghost function F(): WindowFn<real> {
      IRateOf(isRate)
    }

    function Carried(): Ends
      reads this`first, this`last
    {
      Ends(first.time, last.time, first.value, last.value)
    }

    /** The two points come and go together. */
    ghost predicate Paired()
      reads this`first, this`last
    {
      first.isNil == last.isNil && first.count == last.count
    }

    ghost function View(): Prev
      reads this`first, this`last
    {
      Prev(first.isNil, Carried(), first.count)
    }

    /** The buffer between two batches: `hist` has been read, and `same` tells
        whether its last step goes on. */
    ghost predicate Kept(q: Query, hist: seq<Sample>, same: bool)
      reads this, ringBuf
    {
      && Carries(q, ringBuf.samples, hist, same) && (hist != [] ==> prevStep == LastStep(q, hist))
      && ringBuf.s == 0 && ringBuf.e == 0 && Paired()
    }

    /** The state between two batches; `held` tells whether there are previous points. They
        are those of the samples `v`, unless a sample after the last step was read. */
    ghost predicate Ready(q: Query, hist: seq<Sample>, same: bool, held: bool, v: seq<Sample>)
      reads this, ringBuf
    {
      && Kept(q, hist, same) && (first.isNil <==> !held)
      && (held && hist != [] && hist[|hist| - 1].time <= q.endSample ==> Holding(View(), v))
    }

    /** The buffer has been searched up to the window that ends at `s`. */
    ghost predicate LookedAt(q: Query, s: int)
      reads this, ringBuf
    {
      ringBuf.Before(s - q.range, s)
    }

    /** The last two samples of one step in the batch, and in the buffer unless the
        previous points stand for it; the step is skipped if there is nothing in either. */
    method OneWindow(q: Query, b: Batch, rangeEnd: int, start: int, end: int, usePrev: bool)
      returns (skip: bool, e: Ends, count: int)
      requires Sorted(ringBuf.samples) && Sorted(ringBuf.samples + b) && IsInterval(q, b, rangeEnd, start, end)
      requires ringBuf.Before(rangeEnd - q.range, rangeEnd)
      modifies ringBuf
      ensures ringBuf.samples == old(ringBuf.samples)
      ensures ringBuf.Before(rangeEnd - q.range, rangeEnd)
      ensures skip <==> Window(q, b, rangeEnd) == [] && (usePrev || !Reaches(q, ringBuf.samples, rangeEnd))
      ensures var w := if usePrev then Window(q, b, rangeEnd) else Window(q, ringBuf.samples + b, rangeEnd);
              count == |w| && (w != [] ==> e == LastTwo(w))
    {
      hide InWindow, Aligned, LastTwo, Sorted;
      var rangeStart := rangeEnd - q.range;
      WindowSlice(b, rangeStart, rangeEnd, start, end);
      var isNil;
      e, isNil := Reduce(b, start, end);
      var bufNil := ringBuf.samples == [] || ringBuf.samples[|ringBuf.samples| - 1].time < rangeStart || usePrev;
      skip := isNil && bufNil;
      if bufNil {
        count := end - start;
        if !usePrev {
          NotInBuffer(q, ringBuf.samples, b, rangeEnd);
        }
      } else {
        WindowConcat(ringBuf.samples, b, rangeStart, rangeEnd);
        WindowSorted(ringBuf.samples + b, rangeStart, rangeEnd);
        if !isNil {
          BatchAfter(ringBuf.samples, b);
          assert b[start].time <= rangeEnd;
        }
        e, count := AddBuffer(q, b[start..end], rangeEnd, e, isNil);
      }
    }

    /** Puts the share of the buffer before that of the batch. */
    method AddBuffer(q: Query, curr: seq<Sample>, rangeEnd: int, e0: Ends, isNil: bool) returns (e: Ends, count: int)
      requires Sorted(ringBuf.samples) && Reaches(q, ringBuf.samples, rangeEnd)
      requires ringBuf.Before(rangeEnd - q.range, rangeEnd)
      requires Sorted(Window(q, ringBuf.samples, rangeEnd) + curr)
      requires isNil || UpTo(ringBuf.samples, rangeEnd)
      requires isNil <==> curr == []
      requires !isNil ==> e0 == LastTwo(curr)
      modifies ringBuf
      ensures ringBuf.samples == old(ringBuf.samples)
      ensures ringBuf.Before(rangeEnd - q.range, rangeEnd)
      ensures var w := Window(q, ringBuf.samples, rangeEnd) + curr;
              count == |w| && (w != [] ==> e == LastTwo(w))
    {
      hide InWindow, Aligned, LastTwo;
      ringBuf.UpdateIndex(rangeEnd - q.range, rangeEnd);
      ghost var prev := ringBuf.samples[ringBuf.s..ringBuf.e];
      var e1, _ := Reduce(ringBuf.samples, ringBuf.s, ringBuf.e);
      count := ringBuf.e - ringBuf.s;
      if isNil {
        e := e1;
        assert prev + curr == prev;
      } else {
        WindowHas(ringBuf.samples, rangeEnd - q.range, rangeEnd, |ringBuf.samples| - 1);
        UpdateIsWhole(prev, curr);
        e, count := Update(e1, e0), |curr| + count;
      }
    }

    /** Pads the steps between the previous batch and this one. */
    method PopulateByPrevious(q: Query, firstStep: int) returns (out: seq<Point<real>>)
      requires Sorted(ringBuf.samples)
      requires prevStep + q.step <= firstStep - q.step ==> UpTo(ringBuf.samples, prevStep)
      ensures out == Padding(q, F(), ringBuf.samples, prevStep, firstStep)
    {
      hide Naive, InWindow, LastTwo, IRateOf, IRateMerge, Emit, PointAt, Sorted;
      var nextStep, lastStep := prevStep + q.step, firstStep - q.step;
      var m, n := 0, 0;
      var te := nextStep;
      out := [];
      NaiveEmpty(q, F(), ringBuf.samples, nextStep, te - q.step);
      while te <= lastStep
        invariant Aligned(te - nextStep, q.step)
        invariant te == nextStep || te - q.step <= lastStep
        invariant 0 <= m <= |ringBuf.samples| && 0 <= n <= |ringBuf.samples|
        invariant forall k :: 0 <= k < m ==> ringBuf.samples[k].time < te - q.range
        invariant forall k :: 0 <= k < n ==> ringBuf.samples[k].time < te + 1
        invariant out == Naive(q, F(), ringBuf.samples, nextStep, te - q.step)
        decreases lastStep + q.step - te
      {
        m := Advance(ringBuf.samples, m, te - q.range);
        n := Advance(ringBuf.samples, n, te + 1);
        GapStep(q, isRate, ringBuf.samples, te, m, n);
        if n - m >= 2 {
          var e, isNil := Reduce(ringBuf.samples, m, n);
          if !isNil {
            out := out + Emit(te, IRateMerge(isRate, e, n - m));
          }
        } else {
          GapOver(q, isRate, ringBuf.samples, nextStep, te, lastStep);
          return;
        }
        NaiveSnoc(q, F(), ringBuf.samples, nextStep, te);
        te := te + q.step;
        assert te - nextStep - q.step == te - q.step - nextStep;
      }
      NaiveTop(q, F(), ringBuf.samples, nextStep, te, lastStep);
    }

    /** What becomes of a step: it completes the previous points, becomes the previous
        points, or is emitted after the padding before the batch. */
    method Take(q: Query, firstStep: int, isFirst: bool, isLast: bool, sameWindow: bool, rangeEnd: int,
                out0: seq<Point<real>>, e: Ends, count: int)
      returns (out: seq<Point<real>>)
      requires Sorted(ringBuf.samples) && Paired()
      requires isFirst && first.isNil && prevStep + q.step <= firstStep - q.step ==> UpTo(ringBuf.samples, prevStep)
      modifies this
      ensures prevStep == old(prevStep) && Paired()
      ensures isFirst && !old(first.isNil) ==>
        var both, n := Update(old(Carried()), e), old(first.count) + count;
        if isLast && sameWindow then out == out0 && !first.isNil && Carried() == both && first.count == n
        else out == out0 + Emit(rangeEnd, IRateMerge(isRate, both, n)) && first.isNil
      ensures !(isFirst && !old(first.isNil)) && isLast && sameWindow ==>
                out == out0 && !first.isNil && Carried() == e && first.count == count
      ensures !(isFirst && !old(first.isNil)) && !(isLast && sameWindow) ==>
        && first.isNil == old(first.isNil)
        && out == out0 + Unless(!isFirst, Padding(q, F(), ringBuf.samples, prevStep, firstStep))
           + Emit(rangeEnd, IRateMerge(isRate, e, count))
    {
      hide Naive, Sorted, IRateMerge, Padding;
      out := out0;
      if isFirst && (!first.isNil || !last.isNil) {
        var both := Update(Carried(), e);
        first := first.(time := both.ft, value := both.fv, count := first.count + count);
        last := last.(time := both.lt, value := both.lv, count := last.count + count);
        // the first window of the batch
        if !(isLast && sameWindow) {
          if !first.isNil && !last.isNil {
            out := out + Emit(rangeEnd, IRateMerge(isRate, Carried(), first.count));
          }
          first, last := NO_POINT, NO_POINT;
        }
      } else if isLast && sameWindow {
        first := FloatPoint(e.ft, e.fv, count, false);
        last := FloatPoint(e.lt, e.lv, count, false);
      } else {
        if isFirst {
          if ringBuf.samples != [] {
            var padding := PopulateByPrevious(q, firstStep);
            out := out + padding;
          } else {
            NoPadding(q, F(), prevStep, firstStep);
          }
        }
        out := out + Emit(rangeEnd, IRateMerge(isRate, e, count));
      }
    }

    /** One turn of the loop over the steps of a batch. The previous points stand for the
        samples `v`, if they do. */
    method Step(q: Query, b: Batch, firstStep: int, start: int, end: int, isFirst: bool, isLast: bool, sameWindow: bool,
                rangeEnd: int, out0: seq<Point<real>>, ghost v: seq<Sample>)
      returns (out: seq<Point<real>>)
      requires Sorted(ringBuf.samples) && Sorted(ringBuf.samples + b) && IsInterval(q, b, rangeEnd, start, end)
            && Paired()
      requires (ringBuf.s == 0 && ringBuf.e == 0) || LookedAt(q, rangeEnd - q.step)
      requires isFirst && first.isNil && prevStep + q.step <= firstStep - q.step ==> UpTo(ringBuf.samples, prevStep)
      modifies this, ringBuf
      ensures ringBuf.samples == old(ringBuf.samples) && prevStep == old(prevStep) && LookedAt(q, rangeEnd) && Paired()
      ensures isFirst && !old(first.isNil) ==>
        Joins(q, isRate, b, isLast && sameWindow, rangeEnd, v, old(View()), View(), out0, out)
      ensures !(isFirst && !old(first.isNil)) ==>
        Stands(q, isRate, ringBuf.samples, b, isLast && sameWindow, rangeEnd,
               Unless(!isFirst, Padding(q, F(), ringBuf.samples, prevStep, firstStep)), old(View()), View(), out0, out)
    {
      hide Naive, InWindow, StepOf, Aligned, Sorted, Padding, IRateMerge, IRateOf, LastTwo, Update, UpTo;
      var usePrev := isFirst && !first.isNil && !last.isNil;
      var skip, e, count := OneWindow(q, b, rangeEnd, start, end, usePrev);
      out := out0;
      StepValue(q, isRate, ringBuf.samples, b, rangeEnd, e, count, usePrev);
      if skip {
        return;
      }
      if usePrev && Holding(View(), v) && Sorted(v + Window(q, b, rangeEnd)) {
        JoinedValue(isRate, v, Window(q, b, rangeEnd), rangeEnd);
      }
      out := Take(q, firstStep, isFirst, isLast, sameWindow, rangeEnd, out, e, count);
    }

    /** The steps of the batch, with the padding before the first of them. */
    method MainWindows(q: Query, b: Batch, firstStep: int, index: seq<int>, n: nat, sameWindow: bool,
                       ghost hist: seq<Sample>, ghost v: seq<Sample>, ghost course: Course, ghost t: int)
      returns (out: seq<Point<real>>, start: nat, rangeEnd: int)
      requires b != [] && Sorted(ringBuf.samples) && Sorted(ringBuf.samples + b) && firstStep == FirstStep(q, b)
            && IsIndex(q, b, index, n)
      requires ringBuf.s == 0 && ringBuf.e == 0 && Paired()
      requires first.isNil && prevStep + q.step <= firstStep - q.step ==> UpTo(ringBuf.samples, prevStep)
      requires Relies(q, Scene(isRate, ringBuf.samples, b, hist, v, prevStep, sameWindow, View(), course, t))
      modifies this, ringBuf
      ensures ringBuf.samples == old(ringBuf.samples) && prevStep == old(prevStep) && Paired()
      ensures LookedAt(q, LastStep(q, b)) && rangeEnd == LastStep(q, b) && CutsAt(b, LastStep(q, b) - q.range, start)
      ensures Results(q, Scene(isRate, ringBuf.samples, b, hist, v, prevStep, sameWindow, old(View()), course, t),
                      View(), out)
    {
      hide Naive, InWindow, StepOf, Aligned, Sorted, Window, CutsAt, LookedAt, View, Paired, UpTo, Relies, Results,
        Reached, Joins, Stands,
        Padding;
      ghost var c := Scene(isRate, ringBuf.samples, b, hist, v, prevStep, sameWindow, View(), course, t);
      ViewNil();
      out, start, rangeEnd := [], 0, firstStep - q.step;
      for i := 0 to n
        invariant ringBuf.samples == old(ringBuf.samples) && prevStep == old(prevStep) && Paired()
        invariant i == 0 ==> out == [] && ringBuf.s == 0 && ringBuf.e == 0 && View() == c.prev
        invariant i > 0 ==> rangeEnd == Nth(q, firstStep, i - 1)
        invariant i > 0 ==> LookedAt(q, rangeEnd)
        invariant i > 0 ==> CutsAt(b, rangeEnd - q.range, start)
        invariant i > 0 ==> Reached(q, c, i, i == n, View(), out)
      {
        rangeEnd := StepAt(q, firstStep, i);
        assert IntervalAt(q, b, index, i);
        start := index[2 * i];
        ghost var before, p := out, View();
        ViewNil();
        out := Step(q, b, firstStep, start, index[2 * i + 1], i == 0, i == n - 1, sameWindow, rangeEnd, out, v);
        StepReaches(q, c, i, n, p, View(), before, out);
      }
      AllReached(q, c, n, View(), out);
    }

    lemma ViewNil()
      ensures View().isNil == first.isNil
    {
    }

    /** One padded step after the last batch. */
    method TailStep(q: Query, b: Batch, rangeEnd: int, start0: nat, out0: seq<Point<real>>)
      returns (start: nat, out: seq<Point<real>>)
      requires b != [] && Sorted(ringBuf.samples + b) && Sorted(ringBuf.samples) && Sorted(b)
      requires b[|b| - 1].time < rangeEnd
      requires start0 <= |b| && ringBuf.s <= |ringBuf.samples|
      requires forall k :: 0 <= k < start0 ==> b[k].time < rangeEnd - q.range
      requires forall k :: 0 <= k < ringBuf.s ==> ringBuf.samples[k].time < rangeEnd - q.range
      modifies ringBuf`s
      ensures start <= |b| && ringBuf.s <= |ringBuf.samples|
      ensures forall k :: 0 <= k < start ==> b[k].time < rangeEnd - q.range
      ensures forall k :: 0 <= k < ringBuf.s ==> ringBuf.samples[k].time < rangeEnd - q.range
      ensures out == out0 + PointAt(q, F(), ringBuf.samples + b, rangeEnd)
    {
      hide InWindow, Aligned, LastTwo, Sorted, PointAt, IRateMerge, IRateOf, Emit;
      var rangeStart := rangeEnd - q.range;
      var buf := ringBuf.samples;
      start, out := start0, out0;
      var bufNil := start > 0 || buf == [] || buf[|buf| - 1].time < rangeStart;
      if bufNil || ringBuf.s >= |buf| {
        start := Advance(b, start, rangeStart);
        PartTail(q, isRate, buf, b, rangeEnd, start);
        if start < |b| {
          var e, isNil := Reduce(b, start, |b|);
          if !isNil {
            out := out + Emit(rangeEnd, IRateMerge(isRate, e, |b| - start));
          }
        }
      } else {
        ringBuf.s := Advance(buf, ringBuf.s, rangeStart);
        WholeTail(q, isRate, buf, b, rangeEnd, ringBuf.s);
        if ringBuf.s < |buf| && |b| + |buf| - ringBuf.s >= 2 {
          var e := CalcLastTwoPoints(buf, b);
          out := out + Emit(rangeEnd, IRateMerge(isRate, e, |b| + |buf| - ringBuf.s));
        }
      }
    }

    /** Pads the steps after the last batch. */
    method PopulateByLast(q: Query, b: Batch, nextStep: int, start0: nat) returns (out: seq<Point<real>>)
      requires b != [] && Sorted(ringBuf.samples + b) && Sorted(ringBuf.samples) && Sorted(b)
      requires LookedAt(q, nextStep - q.step)
      requires CutsAt(b, nextStep - q.step - q.range, start0)
      requires b[|b| - 1].time < nextStep
      modifies ringBuf`s
      ensures out == Naive(q, F(), ringBuf.samples + b, nextStep, q.lastStep)
    {
      hide Naive, InWindow, StepOf, PointAt, Sorted;
      var start: nat := start0;
      ghost var buf, xs := ringBuf.samples, ringBuf.samples + b;
      out := [];
      var rangeEnd := nextStep;
      NaiveEmpty(q, F(), xs, nextStep, rangeEnd - q.step);
      while rangeEnd <= q.lastStep
        invariant Aligned(rangeEnd - nextStep, q.step)
        invariant rangeEnd == nextStep || rangeEnd - q.step <= q.lastStep
        invariant start <= |b|
        invariant ringBuf.samples == buf && ringBuf.s <= |buf|
        invariant forall k :: 0 <= k < start ==> b[k].time < rangeEnd - q.step - q.range
        invariant forall k :: 0 <= k < ringBuf.s ==> buf[k].time < rangeEnd - q.step - q.range
        invariant out == Naive(q, F(), xs, nextStep, rangeEnd - q.step)
        decreases q.lastStep + q.step - rangeEnd
      {
        start, out := TailStep(q, b, rangeEnd, start, out);
        NaiveSnoc(q, F(), xs, nextStep, rangeEnd);
        rangeEnd := rangeEnd + q.step;
        assert rangeEnd - nextStep - q.step == rangeEnd - q.step - nextStep;
      }
      NaiveTop(q, F(), xs, nextStep, rangeEnd, q.lastStep);
    }

    /** After the steps of a batch: the padding after the last batch of the series, or
        the samples to keep for the next one. */
    method EndBatch(q: Query, b: Batch, sameWindow: bool, lastRec: bool, rangeEnd: int, start: nat,
                    ghost hist: seq<Sample>, ghost same: bool)
      returns (tail: seq<Point<real>>)
      requires b != [] && ValidSamples(q, hist + b) && Paired()
      requires Carries(q, ringBuf.samples, hist, same) && (Meets(q, hist, b) ==> same)
      requires LookedAt(q, rangeEnd) && rangeEnd == LastStep(q, b) && CutsAt(b, rangeEnd - q.range, start)
      modifies this, ringBuf
      ensures tail == Unless(!lastRec, Naive(q, F(), hist + b, rangeEnd + q.step, q.lastStep))
      ensures !lastRec ==> Kept(q, hist + b, sameWindow) && first == old(first) && last == old(last)
    {
      hide Naive, InWindow, StepOf, Aligned, From, Sorted;
      ghost var kept := ringBuf.samples;
      KeptIsEnough(q, kept, hist, b, same);
      BatchAfter(kept, b);
      LastInWindow(q, hist, b);
      StepsMeet(q, hist, b);
      tail := [];
      prevStep := rangeEnd;
      if lastRec {
        var nextStep := rangeEnd + q.step;
        NaiveCong(q, F(), kept + b, hist + b, nextStep, q.lastStep);
        if nextStep <= q.lastStep {
          tail := PopulateByLast(q, b, nextStep, start);
        } else {
          NaiveEmpty(q, F(), hist + b, nextStep, q.lastStep);
        }
        prevStep := 0;
        first, last := NO_POINT, NO_POINT;
        ringBuf.Reset();
      } else {
        KeepsCarrying(q, kept, hist, b, same, sameWindow);
        ringBuf.UpdateValue(q, b, sameWindow, rangeEnd, start);
      }
    }

    /** One batch of a series, after the samples `hist` of earlier batches. */
    method Aggregate(q: Query, b: Batch, firstStep: int, index: seq<int>, sameWindow: bool, lastRec: bool,
                     ghost hist: seq<Sample>, ghost same: bool, ghost held: bool, ghost v: seq<Sample>,
                     ghost course: Course, ghost t: int)
      returns (out: seq<Point<real>>)
      requires b != [] && ValidSamples(q, hist + b) && Kept(q, hist, same) && (Meets(q, hist, b) ==> same)
      requires firstStep == FirstStep(q, b) && |index| % 2 == 0 && IsIndex(q, b, index, |index| / 2)
      requires !course.Garbled? ==> Ready(q, hist, same, held, v)
      requires course.Timely? ==>
                 b[0].time <= q.endSample && (held ==> hist != [] && Agrees(q, isRate, hist, b, firstStep, v))
      requires course.Vague? ==> b[0].time <= q.endSample && held && hist != [] && Sorted(v + Window(q, b, firstStep))
      requires course.Overdue? ==> b[0].time > q.endSample
      requires course.Garbled? ==> t < firstStep && hist != [] && t <= LastStep(q, hist)
      requires lastRec ==> !sameWindow
      modifies this, ringBuf
      ensures !lastRec ==> Kept(q, hist + b, sameWindow)
      ensures !lastRec && Carrying(q, b, sameWindow, course) ==>
        Ready(q, hist + b, sameWindow, HeldAfter(q, hist, b, sameWindow, held), CarryOver(q, hist, b, held, v))
      ensures Output(q, Scene(isRate, old(ringBuf.samples), b, hist, v, old(prevStep), sameWindow, old(View()), course,
                              t), held, lastRec, out)
    {
      hide Naive, InWindow, StepOf, Aligned, From, Sorted, IRateOf, UpTo, Agrees, Relies, Results, Holding, Window,
        Output, Carrying,
        CarryOver, HeldAfter, ValidSamples;
      ghost var c := Scene(isRate, ringBuf.samples, b, hist, v, prevStep, sameWindow, View(), course, t);
      LastInWindow(q, hist, b);
      Prepared(q, b, hist, same, held, v, sameWindow, course, t);
      var start, rangeEnd;
      out, start, rangeEnd := MainWindows(q, b, firstStep, index, |index| / 2, sameWindow, hist, v, course, t);
      Concludes(q, c, View(), out, same, held, lastRec);
      var tail := EndBatch(q, b, sameWindow, lastRec, rangeEnd, start, hist, same);
      out := out + tail;
    }

    lemma Prepared(q: Query, b: Batch, hist: seq<Sample>, same: bool, held: bool, v: seq<Sample>, sameWindow: bool,
                   course: Course, t: int)
      requires b != [] && ValidSamples(q, hist + b) && Kept(q, hist, same) && (Meets(q, hist, b) ==> same)
      requires !course.Garbled? ==> Ready(q, hist, same, held, v)
      requires course.Timely? ==>
                 b[0].time <= q.endSample && (held ==> hist != [] && Agrees(q, isRate, hist, b, FirstStep(q, b), v))
      requires course.Vague? ==>
                 b[0].time <= q.endSample && held && hist != [] && Sorted(v + Window(q, b, FirstStep(q, b)))
      requires course.Overdue? ==> b[0].time > q.endSample
      requires course.Garbled? ==> t < FirstStep(q, b) && hist != [] && t <= LastStep(q, hist)
      ensures Sorted(ringBuf.samples) && Sorted(ringBuf.samples + b)
      ensures Relies(q, Scene(isRate, ringBuf.samples, b, hist, v, prevStep, sameWindow, View(), course, t))
      ensures first.isNil && prevStep + q.step <= FirstStep(q, b) - q.step ==> UpTo(ringBuf.samples, prevStep)
    {
      hide Naive, InWindow, StepOf, Aligned, From, Sorted, Enough, IRateOf, Agrees, LastTwo;
      BatchAfter(hist, b);
      KeptIsEnough(q, ringBuf.samples, hist, b, same);
      if b[0].time <= q.endSample {
        BatchFacts(q, ringBuf.samples, hist, b, same);
        FirstInWindow(q, b);
        assert hist != [] ==> hist[|hist| - 1].time < b[0].time;
      } else {
        NothingOfNothing(isRate);
        LateFacts(q, F(), ringBuf.samples, hist, b, same, prevStep);
      }
    }
  }

  /** A step whose window the previous points begin: the samples of the batch join those
      the points stand for. The value becomes the previous point if the step is `pending`. */
  ghost predicate Joins(q: Query, isRate: bool, b: Batch, pending: bool, s: int, v: seq<Sample>, p0: Prev, p1: Prev,
                        out0: seq<Point<real>>, out: seq<Point<real>>)
  {
    var w := Window(q, b, s);
    if w == [] then p1 == p0 && out == out0
    else
      && p1.isNil == !pending && out0 <= out && (forall i :: |out0| <= i < |out| ==> out[i].ts == s)
      && (pending ==> out == out0)
      && (Holding(p0, v) && Sorted(v + w) ==>
            && (pending ==> Holding(p1, v + w))
            && (!pending ==> out == out0 + Emit(s, IRateOf(isRate)(v + w))))
  }

  /** A step on its own, with the padding before the batch if it is the first. */
  ghost predicate Stands(q: Query, isRate: bool, kept: seq<Sample>, b: Batch, pending: bool, s: int,
                         padding: seq<Point<real>>, p0: Prev, p1: Prev, out0: seq<Point<real>>, out: seq<Point<real>>)
  {
    var w := Window(q, kept + b, s);
    if Window(q, b, s) == [] && !Reaches(q, kept, s) then p1 == p0 && out == out0
    else if pending then out == out0 && !p1.isNil && (w != [] ==> Holding(p1, w))
    else p1.isNil == p0.isNil && out == out0 + padding + PointAt(q, IRateOf(isRate), kept + b, s)
  }

  /** A batch with what is in the buffer and known about the history when it is reduced. */
  datatype Scene = Scene(isRate: bool, kept: seq<Sample>, b: Batch, hist: seq<Sample>, v: seq<Sample>, prevStep: int,
                         sameWindow: bool,
                         prev: Prev, course: Course, t: int)

  ghost function PaddingOf(q: Query, c: Scene): seq<Point<real>>
    requires c.b != []
  {
    Padding(q, IRateOf(c.isRate), c.kept, c.prevStep, FirstStep(q, c.b))
  }

  /** What the loop over the steps relies on. */
  ghost predicate Relies(q: Query, c: Scene) {
    && c.b != []
    && var s := FirstStep(q, c.b);
       match c.course
       case Timely =>
         && Sorted(c.kept) && Enough(q, c.kept, c.hist, c.b) && UpTo(c.kept, s) && Window(q, c.b, s) != []
         && (!c.prev.isNil ==> Holding(c.prev, c.v) && Agrees(q, c.isRate, c.hist, c.b, s, c.v))
       case Vague => Window(q, c.b, s) != [] && Holding(c.prev, c.v) && Sorted(c.v + Window(q, c.b, s))
       case Overdue => s == LastStep(q, c.b) && Window(q, c.b, s) == []
       case Garbled => c.t < s && c.t <= c.prevStep
  }

  /** What the batch gives, and the previous points after it. In a garbled run nothing is
      given for step `t` or before. */
  ghost predicate Results(q: Query, c: Scene, p: Prev, out: seq<Point<real>>) {
    && c.b != []
    && var s, L := FirstStep(q, c.b), LastStep(q, c.b);
       match c.course
       case Timely =>
         var w := CarryOver(q, c.hist, c.b, !c.prev.isNil, c.v);
         && (if c.sameWindow && w != [] then Holding(p, w) else p.isNil)
         && out == Unless((s == L && c.sameWindow) || !c.prev.isNil, PaddingOf(q, c))
                   + Naive(q, IRateOf(c.isRate), c.hist + c.b, s, DoneStep(q, c.b, c.sameWindow))
       case Vague =>
         if s == L && c.sameWindow then out == [] && Holding(p, c.v + Window(q, c.b, s))
         else Emit(s, IRateOf(c.isRate)(c.v + Window(q, c.b, s))) <= out
       case Overdue =>
         var emits := c.prev.isNil && Reaches(q, c.kept, s) && !c.sameWindow;
         && out == Unless(!emits, PaddingOf(q, c) + PointAt(q, IRateOf(c.isRate), c.kept, s))
         && (p.isNil <==> c.prev.isNil && !(Reaches(q, c.kept, s) && c.sameWindow))
       case Garbled => AllAfter(out, c.t)
  }

  /** The same after `i` steps, the last of which is `done` or goes on. */
  ghost predicate Reached(q: Query, c: Scene, i: nat, over: bool, p: Prev, out: seq<Point<real>>)
    requires c.b != [] && i > 0
  {
    var s, L, pending := FirstStep(q, c.b), Nth(q, FirstStep(q, c.b), i - 1), over && c.sameWindow;
    match c.course
    case Timely =>
      var w := if i == 1 && !c.prev.isNil then c.v + Window(q, c.b, s) else Window(q, c.hist + c.b, L);
      && (if pending && w != [] then Holding(p, w) else p.isNil)
      && out == Unless((i == 1 && pending) || !c.prev.isNil, PaddingOf(q, c))
                + Naive(q, IRateOf(c.isRate), c.hist + c.b, s, if pending then L - q.step else L)
    case Vague =>
      if i == 1 && pending then out == [] && Holding(p, c.v + Window(q, c.b, s))
      else Emit(s, IRateOf(c.isRate)(c.v + Window(q, c.b, s))) <= out
    case Overdue =>
      i == 1 ==>
        var emits := c.prev.isNil && Reaches(q, c.kept, s) && !pending;
        && out == Unless(!emits, PaddingOf(q, c) + PointAt(q, IRateOf(c.isRate), c.kept, s))
        && (p.isNil <==> c.prev.isNil && !(Reaches(q, c.kept, s) && pending))
    case Garbled => AllAfter(out, c.t)
  }

  /** Whether it is known what the previous points stand for after the batch. */
  ghost predicate Carrying(q: Query, b: Batch, sameWindow: bool, course: Course)
    requires b != []
  {
    match course
    case Timely => true
    case Vague => FirstStep(q, b) == LastStep(q, b) && sameWindow
    case Overdue => true
    case Garbled => false
  }

  /** What the batch gives, by the history. */
  ghost predicate Output(q: Query, c: Scene, held: bool, lastRec: bool, out: seq<Point<real>>)
    requires c.b != []
  {
    var f, s, L := IRateOf(c.isRate), FirstStep(q, c.b), LastStep(q, c.b);
    match c.course
    case Timely =>
      out == Unless((s == L && c.sameWindow) || held, GapPoints(q, f, c.hist, c.b))
             + MainPoints(q, f, c.hist, c.b, c.sameWindow)
             + Unless(!lastRec, Naive(q, f, c.hist + c.b, L + q.step, q.lastStep))
    case Vague => if s == L && c.sameWindow && !lastRec then out == [] else Emit(s, f(c.v + Window(q, c.b, s))) <= out
    case Overdue =>
      out == Unless(!Emits(q, c.hist, c.sameWindow, held),
                    GapPoints(q, f, c.hist, c.b) + PointAt(q, f, c.hist, q.endSample))
    case Garbled => AllAfter(out, c.t)
  }

  /** The end of the loop over the steps of a batch. */
  ghost predicate Closing(q: Query, c: Scene, p: Prev, out: seq<Point<real>>, same: bool, held: bool, lastRec: bool) {
    && Relies(q, c) && Results(q, c, p, out) && ValidSamples(q, c.hist + c.b) && (lastRec ==> !c.sameWindow)
    && Carries(q, c.kept, c.hist, same) && (Meets(q, c.hist, c.b) ==> same)
    && (c.hist != [] ==> c.prevStep == LastStep(q, c.hist))
    && (!c.course.Garbled? ==> (c.prev.isNil <==> !held))
    && (c.course.Timely? || c.course.Vague? ==> c.b[0].time <= q.endSample)
    && (c.course.Overdue? ==> c.b[0].time > q.endSample)
  }

  /** The previous points after the batch. */
  ghost predicate Closed(q: Query, c: Scene, p: Prev, held: bool)
    requires c.b != []
  {
    && (p.isNil <==> !HeldAfter(q, c.hist, c.b, c.sameWindow, held))
    && (!p.isNil && c.b[|c.b| - 1].time <= q.endSample ==> Holding(p, CarryOver(q, c.hist, c.b, held, c.v)))
  }

  ghost function TailOf(q: Query, c: Scene, lastRec: bool): seq<Point<real>>
    requires c.b != []
  {
    Unless(!lastRec, Naive(q, IRateOf(c.isRate), c.hist + c.b, LastStep(q, c.b) + q.step, q.lastStep))
  }

  /** From what the loop over the steps gives to the output and the state after the batch. */
  lemma Concludes(q: Query, c: Scene, p: Prev, out: seq<Point<real>>, same: bool, held: bool, lastRec: bool)
    requires Closing(q, c, p, out, same, held, lastRec)
    ensures c.b != [] && Output(q, c, held, lastRec, out + TailOf(q, c, lastRec))
    ensures Carrying(q, c.b, c.sameWindow, c.course) ==> Closed(q, c, p, held)
  {
    hide Closing, Output, Closed, TailOf, StepOf;
    match c.course
    case Timely => ConcludesTimely(q, c, p, out, same, held, lastRec);
    case Vague => ConcludesVague(q, c, p, out, same, held, lastRec);
    case Overdue => ConcludesLate(q, c, p, out, same, held, lastRec);
    case Garbled => ConcludesGarbled(q, c, p, out, same, held, lastRec);
  }

  lemma ConcludesTimely(q: Query, c: Scene, p: Prev, out: seq<Point<real>>, same: bool, held: bool, lastRec: bool)
    requires Closing(q, c, p, out, same, held, lastRec) && c.course.Timely?
    ensures c.b != [] && Output(q, c, held, lastRec, out + TailOf(q, c, lastRec)) && Closed(q, c, p, held)
  {
    hide Naive, InWindow, StepOf, From, Sorted, GapPoints, Padding, IRateOf, Relies, LastTwo, Window, Enough,
      ValidSamples;
    SomeBatch(q, c);
    NothingOfNothing(c.isRate);
    KeptIsEnough(q, c.kept, c.hist, c.b, same);
    PaddingIsGap(q, IRateOf(c.isRate), c.kept, c.hist, c.b, same, c.prevStep);
    CarriesSomething(q, c.hist, c.b, held, c.v);
  }

  lemma ConcludesVague(q: Query, c: Scene, p: Prev, out: seq<Point<real>>, same: bool, held: bool, lastRec: bool)
    requires Closing(q, c, p, out, same, held, lastRec) && c.course.Vague?
    ensures c.b != [] && Output(q, c, held, lastRec, out + TailOf(q, c, lastRec))
    ensures FirstStep(q, c.b) == LastStep(q, c.b) && c.sameWindow ==> Closed(q, c, p, held)
  {
    hide Naive, InWindow, StepOf, From, Sorted, IRateOf, Relies, LastTwo, Window, ValidSamples, Emit;
    SomeBatch(q, c);
    WindowOfLast(q, c);
  }

  lemma ConcludesLate(q: Query, c: Scene, p: Prev, out: seq<Point<real>>, same: bool, held: bool, lastRec: bool)
    requires Closing(q, c, p, out, same, held, lastRec) && c.course.Overdue?
    ensures c.b != [] && Output(q, c, held, lastRec, out + TailOf(q, c, lastRec)) && Closed(q, c, p, held)
  {
    hide Naive, InWindow, StepOf, From, Sorted, GapPoints, Padding, IRateOf, Relies, LastTwo, Window, Enough, PointAt;
    SomeBatch(q, c);
    var f := IRateOf(c.isRate);
    NothingOfNothing(c.isRate);
    LateFacts(q, f, c.kept, c.hist, c.b, same, c.prevStep);
    LateEnd(q, c.hist, c.b);
    BatchAfter(c.hist, c.b);
    SamePoint(q, f, c.kept, c.hist, q.endSample);
    NaiveEmpty(q, f, c.hist + c.b, LastStep(q, c.b) + q.step, q.lastStep);
  }

  lemma ConcludesGarbled(q: Query, c: Scene, p: Prev, out: seq<Point<real>>, same: bool, held: bool, lastRec: bool)
    requires Closing(q, c, p, out, same, held, lastRec) && c.course.Garbled?
    ensures c.b != [] && Output(q, c, held, lastRec, out + TailOf(q, c, lastRec))
  {
    hide Naive, InWindow, StepOf, From, Sorted, IRateOf, Relies, ValidSamples;
    SomeBatch(q, c);
    FirstBeyond(q, c);
    StepsMeet(q, c.hist, c.b);
    NaiveSpan(q, IRateOf(c.isRate), c.hist + c.b, LastStep(q, c.b) + q.step, q.lastStep, c.t);
  }

  lemma SomeBatch(q: Query, c: Scene)
    requires Relies(q, c)
    ensures c.b != []
  {
  }

  lemma FirstBeyond(q: Query, c: Scene)
    requires Relies(q, c) && c.course.Garbled?
    ensures c.t < FirstStep(q, c.b)
  {
    hide StepOf;
  }

  lemma WindowOfLast(q: Query, c: Scene)
    requires Relies(q, c) && c.course.Vague?
    ensures !c.prev.isNil && Window(q, c.hist + c.b, FirstStep(q, c.b)) != []
  {
    hide StepOf, InWindow, Sorted;
    WindowHasMore(q, c.hist, c.b, FirstStep(q, c.b));
  }

  lemma AllReached(q: Query, c: Scene, n: nat, p: Prev, out: seq<Point<real>>)
    requires Relies(q, c) && n > 0 && Nth(q, FirstStep(q, c.b), n - 1) == LastStep(q, c.b)
          && Reached(q, c, n, true, p, out)
    ensures Results(q, c, p, out)
  {
    hide Naive, InWindow, StepOf, Window, IRateOf, Enough, Agrees, Holding, Emit, PointAt, PaddingOf, Reaches;
    OneStepOnly(q, FirstStep(q, c.b), n);
  }

  /** The step is the first one and the previous points begin its window, or it stands on its own. */
  ghost predicate Turn(q: Query, c: Scene, i: nat, pending: bool, p0: Prev, p1: Prev, out0: seq<Point<real>>,
                       out: seq<Point<real>>)
    requires c.b != []
  {
    var s := Nth(q, FirstStep(q, c.b), i);
    if i == 0 && !p0.isNil then Joins(q, c.isRate, c.b, pending, s, c.v, p0, p1, out0, out)
    else Stands(q, c.isRate, c.kept, c.b, pending, s, Unless(i > 0, PaddingOf(q, c)), p0, p1, out0, out)
  }

  /** One more step of the loop. */
  lemma StepReaches(q: Query, c: Scene, i: nat, n: nat, p0: Prev, p1: Prev, out0: seq<Point<real>>,
                    out: seq<Point<real>>)
    requires Relies(q, c) && i < n && Nth(q, FirstStep(q, c.b), n - 1) == LastStep(q, c.b)
    requires if i == 0 then p0 == c.prev && out0 == [] else Reached(q, c, i, false, p0, out0)
    requires Turn(q, c, i, i == n - 1 && c.sameWindow, p0, p1, out0, out)
    ensures Reached(q, c, i + 1, i + 1 == n, p1, out)
  {
    hide Turn, Relies, Reached, StepOf, Nth;
    match c.course
    case Timely => TimelyStep(q, c, i, n, p0, p1, out0, out);
    case Vague => VagueStep(q, c, i, n, p0, p1, out0, out);
    case Overdue => OverdueStep(q, c, i, n, p0, p1, out0, out);
    case Garbled => GarbledStep(q, c, i, n, p0, p1, out0, out);
  }

  lemma TimelyStep(q: Query, c: Scene, i: nat, n: nat, p0: Prev, p1: Prev, out0: seq<Point<real>>,
                   out: seq<Point<real>>)
    requires Relies(q, c) && i < n && Nth(q, FirstStep(q, c.b), n - 1) == LastStep(q, c.b) && c.course.Timely?
    requires if i == 0 then p0 == c.prev && out0 == [] else Reached(q, c, i, false, p0, out0)
    requires Turn(q, c, i, i == n - 1 && c.sameWindow, p0, p1, out0, out)
    ensures Reached(q, c, i + 1, i + 1 == n, p1, out)
  {
    hide Naive, InWindow, StepOf, IRateOf, UpTo, Sorted, PaddingOf, Enough, Holding;
    var s := Nth(q, FirstStep(q, c.b), i);
    var xs, pending := c.hist + c.b, i == n - 1 && c.sameWindow;
    var gap := Unless((i == 0 && pending) || !c.prev.isNil, PaddingOf(q, c));
    BufferBehind(q, c.kept, c.b, FirstStep(q, c.b), i, n);
    EnoughAt(q, c.kept, c.hist, c.b, s);
    WindowHasMore(q, c.hist, c.b, s);
    BufferInWindow(q, c.kept, s);
    WindowConcat(c.kept, c.b, s - q.range, s);
    SameValue(q, c.isRate, c.kept + c.b, xs, s);
    PointIs(q, c.isRate, xs, s);
    MainSnoc(q, IRateOf(c.isRate), xs, FirstStep(q, c.b), i, s, gap, out0, out, pending);
  }

  lemma SameValue(q: Query, isRate: bool, xs: seq<Sample>, ys: seq<Sample>, s: int)
    requires Window(q, xs, s) == Window(q, ys, s)
    ensures PointAt(q, IRateOf(isRate), xs, s) == PointAt(q, IRateOf(isRate), ys, s)
    ensures Window(q, xs, s) == [] ==> PointAt(q, IRateOf(isRate), xs, s) == []
  {
    hide Window;
  }

  lemma VagueStep(q: Query, c: Scene, i: nat, n: nat, p0: Prev, p1: Prev, out0: seq<Point<real>>, out: seq<Point<real>>)
    requires Relies(q, c) && i < n && Nth(q, FirstStep(q, c.b), n - 1) == LastStep(q, c.b) && c.course.Vague?
    requires if i == 0 then p0 == c.prev && out0 == [] else Reached(q, c, i, false, p0, out0)
    requires Turn(q, c, i, i == n - 1 && c.sameWindow, p0, p1, out0, out)
    ensures Reached(q, c, i + 1, i + 1 == n, p1, out)
  {
    hide Naive, InWindow, StepOf, Window, IRateOf, Sorted, PaddingOf, Emit;
  }

  lemma OverdueStep(q: Query, c: Scene, i: nat, n: nat, p0: Prev, p1: Prev, out0: seq<Point<real>>,
                    out: seq<Point<real>>)
    requires Relies(q, c) && i < n && Nth(q, FirstStep(q, c.b), n - 1) == LastStep(q, c.b) && c.course.Overdue?
    requires i == 0 ==> p0 == c.prev && out0 == []
    requires Turn(q, c, i, i == n - 1 && c.sameWindow, p0, p1, out0, out)
    ensures Reached(q, c, i + 1, i + 1 == n, p1, out)
  {
    hide Naive, InWindow, StepOf, IRateOf, Sorted, PaddingOf, Holding;
    if i == 0 {
      var s := FirstStep(q, c.b);
      WindowConcat(c.kept, c.b, s - q.range, s);
      assert Window(q, c.kept, s) + [] == Window(q, c.kept, s);
      SameValue(q, c.isRate, c.kept + c.b, c.kept, s);
    }
  }

  lemma GarbledStep(q: Query, c: Scene, i: nat, n: nat, p0: Prev, p1: Prev, out0: seq<Point<real>>,
                    out: seq<Point<real>>)
    requires Relies(q, c) && i < n && Nth(q, FirstStep(q, c.b), n - 1) == LastStep(q, c.b) && c.course.Garbled?
    requires if i == 0 then p0 == c.prev && out0 == [] else Reached(q, c, i, false, p0, out0)
    requires Turn(q, c, i, i == n - 1 && c.sameWindow, p0, p1, out0, out)
    ensures Reached(q, c, i + 1, i + 1 == n, p1, out)
  {
    hide Naive, InWindow, StepOf, Window, IRateOf, Sorted, Holding, Padding;
    NthMonotone(q, FirstStep(q, c.b), 0, i);
    PaddingAfter(q, IRateOf(c.isRate), c.kept, c.prevStep, FirstStep(q, c.b), c.t);
  }

  /** The samples the previous points stand for after a batch: those they stood for before
      and those of the batch, if the batch has no step but the first. */
  ghost function CarryOver(q: Query, hist: seq<Sample>, b: Batch, held: bool, v: seq<Sample>): seq<Sample>
    requires b != []
  {
    if held && FirstStep(q, b) == LastStep(q, b) then v + Window(q, b, FirstStep(q, b))
    else Window(q, hist + b, LastStep(q, b))
  }

  /** The samples `v` before the batch give step `s` the value of its window. */
  ghost predicate Agrees(q: Query, isRate: bool, hist: seq<Sample>, b: Batch, s: int, v: seq<Sample>) {
    && Sorted(v + Window(q, b, s))
    && IRateOf(isRate)(v + Window(q, b, s)) == IRateOf(isRate)(Window(q, hist + b, s))
  }

  lemma NothingOfNothing(isRate: bool)
    ensures IRateOf(isRate)([]) == None
  {
  }

  lemma CarriesSomething(q: Query, hist: seq<Sample>, b: Batch, held: bool, v: seq<Sample>)
    requires b != [] && ValidSamples(q, hist + b) && b[0].time <= q.endSample
    ensures CarryOver(q, hist, b, held, v) != [] <==> Window(q, hist + b, LastStep(q, b)) != []
  {
    hide InWindow, StepOf;
    StepsMeet(q, hist, b);
    FirstInWindow(q, b);
    WindowHasMore(q, hist, b, FirstStep(q, b));
  }

  /** The value of the first step from the samples carried and those of the batch. */
  lemma JoinedValue(isRate: bool, v: seq<Sample>, w: seq<Sample>, s: int)
    requires v != [] && w != [] && Sorted(v + w)
    ensures Update(LastTwo(v), LastTwo(w)) == LastTwo(v + w)
    ensures Emit(s, IRateMerge(isRate, LastTwo(v + w), |v + w|)) == Emit(s, IRateOf(isRate)(v + w))
  {
    hide LastTwo, IRateMerge, IRateOf, Update;
    UpdateIsWhole(v, w);
    MergeIsReference(isRate, v + w, LastTwo(v + w));
  }

  lemma PointIs(q: Query, isRate: bool, xs: seq<Sample>, s: int)
    ensures PointAt(q, IRateOf(isRate), xs, s) == Emit(s, IRateOf(isRate)(Window(q, xs, s)))
  {
    hide IRateOf, Window;
  }

  /** One padded step before a batch. */
  lemma GapStep(q: Query, isRate: bool, kept: seq<Sample>, te: int, m: nat, n: nat)
    requires Sorted(kept) && CutsAt(kept, te - q.range, m) && CutsAt(kept, te + 1, n)
    ensures m <= n && |Window(q, kept, te)| == n - m
    ensures m < n ==> Emit(te, IRateMerge(isRate, LastTwo(kept[m..n]), n - m)) == PointAt(q, IRateOf(isRate), kept, te)
  {
    hide InWindow, LastTwo, IRateMerge, IRateOf;
    CutsOrdered(kept, te - q.range, te + 1, m, n);
    WindowSlice(kept, te - q.range, te, m, n);
    if m < n {
      MergeIsReference(isRate, kept[m..n], LastTwo(kept[m..n]));
    }
  }

  lemma GapOver(q: Query, isRate: bool, kept: seq<Sample>, from: int, te: int, till: int)
    requires Sorted(kept) && from <= te <= till && Aligned(te - from, q.step)
    requires |Window(q, kept, te)| < 2 && UpTo(kept, te)
    ensures Naive(q, IRateOf(isRate), kept, from, till) == Naive(q, IRateOf(isRate), kept, from, te - q.step)
  {
    hide InWindow, Naive, Change;
    NothingLeft(q, IRateOf(isRate), 2, kept, from, te, till);
  }

  /** The value of a step without previous points is the one of its window. */
  lemma StepValue(q: Query, isRate: bool, kept: seq<Sample>, b: Batch, s: int, e: Ends, count: int, usePrev: bool)
    requires Sorted(kept + b)
    requires !usePrev ==> count == |Window(q, kept + b, s)| && (count > 0 ==> e == LastTwo(Window(q, kept + b, s)))
    ensures !usePrev ==> Emit(s, IRateMerge(isRate, e, count)) == PointAt(q, IRateOf(isRate), kept + b, s)
  {
    hide InWindow, LastTwo, Sorted, IRateMerge, IRateOf;
    WindowSorted(kept + b, s - q.range, s);
    if !usePrev {
      MergeIsReference(isRate, Window(q, kept + b, s), e);
    }
  }

  lemma SilentStep(q: Query, isRate: bool, xs: seq<Sample>, s: int)
    ensures Window(q, xs, s) == [] ==> PointAt(q, IRateOf(isRate), xs, s) == []
  {
    hide InWindow;
  }

  /** After the batch, with the buffer out of reach: the rest of the batch. */
  lemma PartTail(q: Query, isRate: bool, kept: seq<Sample>, b: Batch, te: int, start: nat)
    requires b != [] && Sorted(kept + b) && b[|b| - 1].time < te
    requires CutsAt(b, te - q.range, start)
    requires start > 0 || !Reaches(q, kept, te)
    ensures PointAt(q, IRateOf(isRate), kept + b, te)
         == if start < |b| then Emit(te, IRateMerge(isRate, LastTwo(b[start..|b|]), |b| - start)) else []
  {
    hide InWindow, LastTwo, Sorted, IRateMerge, IRateOf;
    TailWindow(q, kept, b, te, start);
    assert [] + b[start..] == b[start..|b|];
    WindowSorted(kept + b, te - q.range, te);
    if start < |b| {
      MergeIsReference(isRate, b[start..|b|], LastTwo(b[start..|b|]));
    } else {
      SilentStep(q, isRate, kept + b, te);
    }
  }

  /** After the batch, with the buffer in reach: its rest and the whole batch. */
  lemma WholeTail(q: Query, isRate: bool, kept: seq<Sample>, b: Batch, te: int, s: nat)
    requires b != [] && Sorted(kept + b) && b[|b| - 1].time < te
    requires CutsAt(kept, te - q.range, s) && Reaches(q, kept, te)
    ensures s < |kept|
    ensures PointAt(q, IRateOf(isRate), kept + b, te)
         == Emit(te, IRateMerge(isRate, LastTwo(kept + b), |b| + |kept| - s))
  {
    hide InWindow, IRateMerge, IRateOf;
    BatchAfter(kept, b);
    TailWindow(q, kept, b, te, 0);
    WholeWindow(q, kept, b, te, s);
    WindowSorted(kept + b, te - q.range, te);
    var w := kept[s..] + b;
    assert b[0..] == b && Window(q, kept + b, te) == w;
    assert LastTwo(w) == LastTwo(kept + b);
    MergeIsReference(isRate, w, LastTwo(w));
  }
}

/**
  The incremental reducer behind sum, count, min, max, last and avg_over_time.
  The value of a step that goes on in the next batch is carried in a single
  "previous point" instead of the samples themselves.
 */
module IncReducer {
  import opened Multiples
  import opened PromSteps
  import opened PromWindows
  import opened PromStreaming
  import opened VectorCursor
  import opened StaleMarkers
  import opened PromAnswers
  import opened CarriedPoints
  import opened OverTime

  class IncReducer {
    const fn: OverTimeFn
    var prevStep: int
    // the previous point
    var prevNil: bool
    var prevValue: real
    var prevCount: int
    const ringBuf: FloatBuffer

    constructor (fn: OverTimeFn)
      ensures this.fn == fn && fresh(ringBuf) && forall q: Query :: Ready(q, [], false, false)
    {
      this.fn := fn;
      prevStep := 0;
      prevNil, prevValue, prevCount := true, 0.0, 0;
      ringBuf := new FloatBuffer();
    }

    /** The previous point is the value of the samples `w`. */
    ghost predicate Holds(w: seq<Sample>)
      reads this
    {
      !prevNil && w != [] && prevValue == Agg(fn, w) && prevCount == |w|
    }

    /** The buffer between two batches: `hist` has been read, and `same` tells
        whether its last step goes on. */
    ghost predicate Kept(q: Query, hist: seq<Sample>, same: bool)
      reads this, ringBuf
    {
      && Carries(q, ringBuf.samples, hist, same) && (hist != [] ==> prevStep == LastStep(q, hist))
      && ringBuf.s == 0 && ringBuf.e == 0 && prevCount >= 0
    }

    /** The state between two batches; `held` tells whether there is a previous point. It
        is the value of the last window, unless a sample after the last step was read. */
    ghost predicate Ready(q: Query, hist: seq<Sample>, same: bool, held: bool)
      reads this, ringBuf
    {
      && Kept(q, hist, same) && (prevNil <==> !held)
      && (held && hist != [] && hist[|hist| - 1].time <= q.endSample ==> Holds(Window(q, hist, LastStep(q, hist))))
    }

    /** The buffer has been searched up to the window that ends at `s`. */
    ghost predicate LookedAt(q: Query, s: int)
      reads this, ringBuf
    {
      ringBuf.Before(s - q.range, s)
    }

    lemma LooksOn(q: Query, s: int)
      requires (ringBuf.s == 0 && ringBuf.e == 0) || LookedAt(q, s - q.step)
      ensures LookedAt(q, s)
    {
    }

    /** The value of one step from the batch, and from the buffer unless the
        previous point stands for it; the step is skipped if there is nothing in
        either. */
    method OneWindow(q: Query, b: Batch, rangeEnd: int, start: int, end: int, usePrev: bool)
      returns (skip: bool, v: real, count: int)
      requires Sorted(ringBuf.samples)
      requires Window(q, b, rangeEnd) == [] || UpTo(ringBuf.samples, rangeEnd)
      requires IsInterval(q, b, rangeEnd, start, end)
      requires ringBuf.Before(rangeEnd - q.range, rangeEnd)
      modifies ringBuf
      ensures ringBuf.samples == old(ringBuf.samples)
      ensures ringBuf.Before(rangeEnd - q.range, rangeEnd)
      ensures skip <==> Window(q, b, rangeEnd) == [] && (usePrev || !Reaches(q, ringBuf.samples, rangeEnd))
      ensures var w := if usePrev then Window(q, b, rangeEnd) else Window(q, ringBuf.samples + b, rangeEnd);
              count == |w| && (w != [] ==> v == Agg(fn, w))
    {
      hide InWindow, Aligned, Agg, Sorted;
      var rangeStart := rangeEnd - q.range;
      WindowSlice(b, rangeStart, rangeEnd, start, end);
      var isNil;
      v, isNil := Reduce(fn, b, start, end);
      var bufNil := ringBuf.samples == [] || ringBuf.samples[|ringBuf.samples| - 1].time < rangeStart || usePrev;
      skip := isNil && bufNil;
      if bufNil {
        count := end - start;
        if !usePrev {
          NotInBuffer(q, ringBuf.samples, b, rangeEnd);
        }
      } else {
        WindowConcat(ringBuf.samples, b, rangeStart, rangeEnd);
        v, count := AddBuffer(q, b[start..end], rangeEnd, v, isNil);
      }
    }

    /** Adds the share of the buffer to the value of the batch. */
    method AddBuffer(q: Query, curr: seq<Sample>, rangeEnd: int, v0: real, isNil: bool) returns (v: real, count: int)
      requires Sorted(ringBuf.samples) && Reaches(q, ringBuf.samples, rangeEnd)
      requires isNil || UpTo(ringBuf.samples, rangeEnd)
      requires ringBuf.Before(rangeEnd - q.range, rangeEnd)
      requires isNil <==> curr == []
      requires !isNil ==> v0 == Agg(fn, curr)
      modifies ringBuf
      ensures ringBuf.samples == old(ringBuf.samples)
      ensures ringBuf.Before(rangeEnd - q.range, rangeEnd)
      ensures var w := Window(q, ringBuf.samples, rangeEnd) + curr;
              count == |w| && (w != [] ==> v == Agg(fn, w))
    {
      hide InWindow, Aligned, Agg;
      ringBuf.UpdateIndex(rangeEnd - q.range, rangeEnd);
      ghost var prev := ringBuf.samples[ringBuf.s..ringBuf.e];
      var v1, _ := Reduce(fn, ringBuf.samples, ringBuf.s, ringBuf.e);
      count := ringBuf.e - ringBuf.s;
      if isNil {
        v := v1;
        assert prev + curr == prev;
      } else {
        WindowHas(ringBuf.samples, rangeEnd - q.range, rangeEnd, |ringBuf.samples| - 1);
        MergeIsWhole(fn, prev, curr);
        v, count := Merge(fn, v1, v0, count, |curr|), count + |curr|;
      }
    }

    /** Pads the steps between the previous batch and this one. */
    method PopulateByPrevious(q: Query, firstStep: int) returns (out: seq<Point<real>>)
      requires Sorted(ringBuf.samples)
      requires prevStep + q.step <= firstStep - q.step ==> UpTo(ringBuf.samples, prevStep)
      ensures out == Naive(q, AggOf(fn), ringBuf.samples, prevStep + q.step, firstStep - q.step)
    {
      hide Naive, InWindow, Agg;
      var nextStep, lastStep := prevStep + q.step, firstStep - q.step;
      var m, n := 0, 0;
      var te := nextStep;
      out := [];
      NaiveEmpty(q, AggOf(fn), ringBuf.samples, nextStep, te - q.step);
      while te <= lastStep
        invariant Aligned(te - nextStep, q.step)
        invariant te == nextStep || te - q.step <= lastStep
        invariant 0 <= m <= |ringBuf.samples| && 0 <= n <= |ringBuf.samples|
        invariant forall k :: 0 <= k < m ==> ringBuf.samples[k].time < te - q.range
        invariant forall k :: 0 <= k < n ==> ringBuf.samples[k].time < te + 1
        invariant out == Naive(q, AggOf(fn), ringBuf.samples, nextStep, te - q.step)
        decreases lastStep + q.step - te
      {
        m := Advance(ringBuf.samples, m, te - q.range);
        n := Advance(ringBuf.samples, n, te + 1);
        CutsOrdered(ringBuf.samples, te - q.range, te + 1, m, n);
        WindowSlice(ringBuf.samples, te - q.range, te, m, n);
        if n > m {
          var v, isNil := Reduce(fn, ringBuf.samples, m, n);
          out := out + [Point(te, v)];
        } else {
          NothingLeft(q, AggOf(fn), 1, ringBuf.samples, nextStep, te, lastStep);
          return;
        }
        NaiveSnoc(q, AggOf(fn), ringBuf.samples, nextStep, te);
        te := te + q.step;
        assert te - nextStep - q.step == te - q.step - nextStep;
      }
      NaiveTop(q, AggOf(fn), ringBuf.samples, nextStep, te, lastStep);
    }

    /** What becomes of the value of a step: it completes the previous point, becomes
        the previous point, or is emitted after the padding before the batch. */
    method Take(q: Query, firstStep: int, first: bool, last: bool, sameWindow: bool, rangeEnd: int,
                out0: seq<Point<real>>, v: real, count: int)
      returns (out: seq<Point<real>>)
      requires Sorted(ringBuf.samples)
      requires first && prevNil && prevStep + q.step <= firstStep - q.step ==> UpTo(ringBuf.samples, prevStep)
      requires first && !prevNil ==> prevCount + count > 0
      modifies this
      ensures prevStep == old(prevStep) && (old(prevCount) >= 0 && count >= 0 ==> prevCount >= 0)
      ensures first && !old(prevNil) ==>
        && prevValue == Merge(fn, old(prevValue), v, old(prevCount), count) && prevCount == old(prevCount) + count
        && (if last && sameWindow then out == out0 && !prevNil
            else out == out0 + [Point(rangeEnd, prevValue)] && prevNil)
      ensures !(first && !old(prevNil)) && last && sameWindow ==>
                out == out0 && !prevNil && prevValue == v && prevCount == count
      ensures !(first && !old(prevNil)) && !(last && sameWindow) ==>
        && prevNil == old(prevNil)
        && out == out0 + Unless(!first, Padding(q, AggOf(fn), ringBuf.samples, prevStep, firstStep))
           + [Point(rangeEnd, v)]
    {
      hide Naive, Sorted;
      out := out0;
      if first && !prevNil {
        prevValue, prevCount := Merge(fn, prevValue, v, prevCount, count), prevCount + count;
        // the first window of the batch
        if !(last && sameWindow) {
          out := out + [Point(rangeEnd, prevValue)];
          prevNil := true;
        }
      } else if last && sameWindow {
        prevNil, prevValue, prevCount := false, v, count;
      } else {
        if first {
          if ringBuf.samples != [] {
            var padding := PopulateByPrevious(q, firstStep);
            out := out + padding;
          } else {
            NoPadding(q, AggOf(fn), prevStep, firstStep);
          }
        }
        out := out + [Point(rangeEnd, v)];
      }
    }

    /** What a batch after the last step of the query gives, of which nothing is in the
        window: a value only if the buffer reaches the window and there was no previous
        point. */
    ghost predicate GivesLate(q: Query, firstStep: int, sameWindow: bool, wasNil: bool, out: seq<Point<real>>,
                              value: real)
      reads this, ringBuf
    {
      var emits := wasNil && Reaches(q, ringBuf.samples, firstStep) && !sameWindow;
      && out == Unless(!emits, Padding(q, AggOf(fn), ringBuf.samples, prevStep, firstStep) + [Point(firstStep, value)])
      && (emits && Window(q, ringBuf.samples, firstStep) != [] ==>
            value == Agg(fn, Window(q, ringBuf.samples, firstStep)))
      && (prevNil <==> wasNil && !(Reaches(q, ringBuf.samples, firstStep) && sameWindow))
    }

    /** One turn of the loop over the steps of a batch; `last` marks the last step. In a
        garbled run all that is known is that nothing is given for step `t` or before. */
    method Step(q: Query, b: Batch, firstStep: int, start: int, end: int, first: bool, last: bool, sameWindow: bool,
                rangeEnd: int, out0: seq<Point<real>>, ghost hist: seq<Sample>, ghost course: Course, ghost t: int)
      returns (out: seq<Point<real>>, ghost value: real)
      requires Sorted(ringBuf.samples) && IsInterval(q, b, rangeEnd, start, end) && prevCount >= 0
      requires (ringBuf.s == 0 && ringBuf.e == 0) || LookedAt(q, rangeEnd - q.step)
      requires first && prevNil && prevStep + q.step <= firstStep - q.step ==> UpTo(ringBuf.samples, prevStep)
      requires Window(q, b, rangeEnd) == [] || UpTo(ringBuf.samples, rangeEnd)
      requires !course.Vague?
      requires course.Overdue? ==> first && last && firstStep == rangeEnd && out0 == [] && Window(q, b, rangeEnd) == []
      requires course.Timely? ==>
                 UpTo(ringBuf.samples, rangeEnd)
                 && Window(q, ringBuf.samples + b, rangeEnd) == Window(q, hist + b, rangeEnd)
      requires course.Timely? && first ==>
                 Window(q, b, rangeEnd) != [] && (!prevNil ==> Holds(Window(q, hist, rangeEnd)))
      requires course.Garbled? ==> t < rangeEnd && t <= prevStep && AllAfter(out0, t)
      modifies this, ringBuf
      ensures ringBuf.samples == old(ringBuf.samples) && prevStep == old(prevStep) && LookedAt(q, rangeEnd)
           && prevCount >= 0
      ensures course.Garbled? ==> AllAfter(out, t)
      ensures course.Overdue? ==> GivesLate(q, firstStep, sameWindow, old(prevNil), out, value)
      ensures course.Timely? && last && sameWindow ==>
        out == out0 && if Window(q, hist + b, rangeEnd) != [] then Holds(Window(q, hist + b, rangeEnd))
        else prevNil == old(prevNil)
      ensures course.Timely? && !(last && sameWindow) ==>
        && (if first then prevNil else prevNil == old(prevNil))
        && out == out0 + Unless(!first || !old(prevNil), Padding(q, AggOf(fn), ringBuf.samples, prevStep, firstStep))
                  + PointAt(q, AggOf(fn), hist + b, rangeEnd)
    {
      hide Naive, InWindow, StepOf, Aligned, Sorted, Agg, Padding, Merge, UpTo, FloatBuffer.Before;
      LooksOn(q, rangeEnd);
      var usePrev := first && !prevNil;
      var skip, v, count := OneWindow(q, b, rangeEnd, start, end, usePrev);
      out, value := out0, v;
      WindowConcat(ringBuf.samples, b, rangeEnd - q.range, rangeEnd);
      assert Window(q, ringBuf.samples, rangeEnd) + [] == Window(q, ringBuf.samples, rangeEnd);
      if course.Timely? {
        BufferInWindow(q, ringBuf.samples, rangeEnd);
        WindowConcat(hist, b, rangeEnd - q.range, rangeEnd);
      } else if course.Garbled? {
        PaddingAfter(q, AggOf(fn), ringBuf.samples, prevStep, firstStep, t);
      }
      if skip {
        return;
      }
      if course.Timely? && usePrev {
        MergeIsWhole(fn, Window(q, hist, rangeEnd), Window(q, b, rangeEnd));
      }
      out := Take(q, firstStep, first, last, sameWindow, rangeEnd, out, v, count);
    }

    /** The state and the batch are as the loop needs them for a batch in time. */
    ghost predicate InTime(q: Query, b: Batch, hist: seq<Sample>)
      requires b != []
      reads this, ringBuf
    {
      var firstStep := FirstStep(q, b);
      && firstStep - q.range <= b[0].time <= firstStep && Enough(q, ringBuf.samples, hist, b)
      && UpTo(ringBuf.samples, firstStep) && (!prevNil ==> Holds(Window(q, hist, firstStep)))
    }

    /** The steps of the batch, with the padding before the first of them. A batch after
        the last step of the query has that step only. */
    method MainWindows(q: Query, b: Batch, firstStep: int, index: seq<int>, n: nat, sameWindow: bool,
                       ghost hist: seq<Sample>, ghost course: Course, ghost t: int)
      returns (out: seq<Point<real>>, start: nat, rangeEnd: int, ghost value: real)
      requires b != [] && Sorted(ringBuf.samples) && firstStep == FirstStep(q, b) && IsIndex(q, b, index, n)
      requires ringBuf.s == 0 && ringBuf.e == 0 && prevCount >= 0
      requires prevNil && prevStep + q.step <= firstStep - q.step ==> UpTo(ringBuf.samples, prevStep)
      requires !course.Vague?
      requires course.Overdue? ==> firstStep == LastStep(q, b) && Window(q, b, firstStep) == []
      requires course.Timely? ==> InTime(q, b, hist)
      requires course.Garbled? ==>
                 t < firstStep && t <= prevStep && (UpTo(ringBuf.samples, firstStep) || NoneUpTo(b, LastStep(q, b)))
      modifies this, ringBuf
      ensures ringBuf.samples == old(ringBuf.samples) && prevStep == old(prevStep) && prevCount >= 0
      ensures LookedAt(q, LastStep(q, b)) && rangeEnd == LastStep(q, b) && CutsAt(b, LastStep(q, b) - q.range, start)
      ensures course.Garbled? ==> AllAfter(out, t)
      ensures course.Overdue? ==> GivesLate(q, firstStep, sameWindow, old(prevNil), out, value)
      ensures course.Timely? ==>
        && (if sameWindow && Window(q, hist + b, rangeEnd) != [] then Holds(Window(q, hist + b, rangeEnd)) else prevNil)
        && out == Unless((FirstStep(q, b) == LastStep(q, b) && sameWindow) || !old(prevNil),
                         Padding(q, AggOf(fn), ringBuf.samples, prevStep, firstStep))
                  + Naive(q, AggOf(fn), hist + b, firstStep, DoneStep(q, b, sameWindow))
    {
      hide Naive, InWindow, StepOf, Aligned, Sorted, PointAt, Padding, Agg, Window, CutsAt, Reaches, AggOf, LookedAt,
        Holds,
        UpTo, NoneUpTo, Enough, GivesLate;
      ghost var xs, nil0 := hist + b, prevNil;
      ghost var gap := Unless((n == 1 && sameWindow) || !nil0,
                              Padding(q, AggOf(fn), ringBuf.samples, prevStep, firstStep));
      if course.Overdue? {
        NthMonotone(q, firstStep, 1, n);
      }
      out, start, rangeEnd, value := [], 0, firstStep - q.step, 0.0;
      for i := 0 to n
        invariant ringBuf.samples == old(ringBuf.samples) && prevStep == old(prevStep) && prevCount >= 0
        invariant i == 0 ==> out == [] && ringBuf.s == 0 && ringBuf.e == 0 && prevNil == nil0
        invariant course.Timely? && i == 0 && !prevNil ==> Holds(Window(q, hist, firstStep))
        invariant i > 0 ==> rangeEnd == Nth(q, firstStep, i - 1)
        invariant i > 0 ==> LookedAt(q, rangeEnd)
        invariant i > 0 ==> CutsAt(b, rangeEnd - q.range, start)
        invariant course.Garbled? ==> AllAfter(out, t)
        invariant course.Overdue? && i > 0 ==> GivesLate(q, firstStep, sameWindow, nil0, out, value)
        invariant course.Timely? && i > 0 ==>
          if i == n && sameWindow && Window(q, xs, rangeEnd) != [] then Holds(Window(q, xs, rangeEnd)) else prevNil
        invariant course.Timely? && i > 0 ==>
          out == gap + Naive(q, AggOf(fn), xs, firstStep, if i == n && sameWindow then rangeEnd - q.step else rangeEnd)
      {
        rangeEnd := StepAt(q, firstStep, i);
        assert IntervalAt(q, b, index, i);
        start := index[2 * i];
        ghost var before := out;
        BufferBehind(q, ringBuf.samples, b, firstStep, i, n);
        if course.Timely? {
          EnoughAt(q, ringBuf.samples, hist, b, rangeEnd);
          if i == 0 {
            FirstInWindow(q, b);
            WindowHasMore(q, hist, b, rangeEnd);
          }
        }
        out, value := Step(q, b, firstStep, start, index[2 * i + 1], i == 0, i
                        == n - 1, sameWindow, rangeEnd, out, hist, course, t);
        if course.Timely? {
          MainSnoc(q, AggOf(fn), xs, firstStep, i, rangeEnd, gap, before, out, i == n - 1 && sameWindow);
        }
      }
    }

    /** One padded step after the last batch. Without a batch there is a point whenever the
        buffer is not behind the window, even if it is ahead of it. */
    method TailStep(q: Query, b: Batch, rangeEnd: int, start0: nat, out0: seq<Point<real>>)
      returns (start: nat, out: seq<Point<real>>)
      requires Sorted(ringBuf.samples + b) && Sorted(ringBuf.samples) && Sorted(b)
      requires b == [] || b[|b| - 1].time < rangeEnd
      requires start0 <= |b| && ringBuf.s <= |ringBuf.samples|
      requires forall k :: 0 <= k < start0 ==> b[k].time < rangeEnd - q.range
      requires forall k :: 0 <= k < ringBuf.s ==> ringBuf.samples[k].time < rangeEnd - q.range
      modifies ringBuf`s
      ensures start <= |b| && ringBuf.s <= |ringBuf.samples|
      ensures forall k :: 0 <= k < start ==> b[k].time < rangeEnd - q.range
      ensures forall k :: 0 <= k < ringBuf.s ==> ringBuf.samples[k].time < rangeEnd - q.range
      ensures b != [] ==> out == out0 + PointAt(q, AggOf(fn), ringBuf.samples + b, rangeEnd)
      ensures b == [] ==> Stamps(out) == Stamps(out0) + Unless(!Reaches(q, ringBuf.samples, rangeEnd), [rangeEnd])
    {
      hide InWindow, Aligned, Agg, Sorted, PointAt;
      var rangeStart := rangeEnd - q.range;
      var buf := ringBuf.samples;
      start, out := start0, out0;
      var bufNil := start > 0 || buf == [] || buf[|buf| - 1].time < rangeStart;
      if bufNil || ringBuf.s >= |buf| {
        start := Advance(b, start, rangeStart);
        if b != [] {
          PartTail(q, fn, buf, b, rangeEnd, start);
        }
        if start < |b| {
          var v, _ := Reduce(fn, b, start, |b|);
          out := out + [Point(rangeEnd, v)];
        }
      } else {
        ringBuf.s := Advance(buf, ringBuf.s, rangeStart);
        if b != [] {
          WholeTail(q, fn, buf, b, rangeEnd, ringBuf.s);
        }
        var v, _ := Reduce(fn, buf, ringBuf.s, |buf|);
        var v1, _ := Reduce(fn, b, 0, |b|);
        out := out + [Point(rangeEnd, Merge(fn, v, v1, |buf| - ringBuf.s, |b|))];
      }
    }

    /** Pads the steps after the last batch. */
    method PopulateByLast(q: Query, b: Batch, nextStep: int, start0: nat) returns (out: seq<Point<real>>)
      requires Sorted(ringBuf.samples + b) && Sorted(ringBuf.samples) && Sorted(b)
      requires b == [] ==> ringBuf.s == 0 && start0 == 0
      requires b != [] ==>
                 LookedAt(q, nextStep - q.step) && CutsAt(b, nextStep - q.step - q.range, start0)
                 && b[|b| - 1].time < nextStep
      modifies ringBuf`s
      ensures b != [] ==> out == Naive(q, AggOf(fn), ringBuf.samples + b, nextStep, q.lastStep)
      ensures b == [] ==> Stamps(out) == PaddedSteps(q, ringBuf.samples, nextStep)
    {
      hide Naive, InWindow, StepOf, PointAt, Sorted, Agg, Reaches, Stamps, PaddedSteps, CutsAt, LookedAt;
      TailStart(q, b, nextStep, start0);
      var start: nat := start0;
      ghost var buf, xs := ringBuf.samples, ringBuf.samples + b;
      out := [];
      var rangeEnd := nextStep;
      NaiveEmpty(q, AggOf(fn), xs, nextStep, rangeEnd - q.step);
      NoStamps();
      while rangeEnd <= q.lastStep
        invariant Aligned(rangeEnd - nextStep, q.step)
        invariant rangeEnd == nextStep || rangeEnd - q.step <= q.lastStep
        invariant start <= |b|
        invariant ringBuf.samples == buf && ringBuf.s <= |buf|
        invariant forall k :: 0 <= k < start ==> b[k].time < rangeEnd - q.step - q.range
        invariant forall k :: 0 <= k < ringBuf.s ==> buf[k].time < rangeEnd - q.step - q.range
        invariant b != [] ==> out == Naive(q, AggOf(fn), xs, nextStep, rangeEnd - q.step)
        invariant b == [] ==> Stamps(out) + PaddedSteps(q, buf, rangeEnd) == PaddedSteps(q, buf, nextStep)
        decreases q.lastStep + q.step - rangeEnd
      {
        start, out := TailStep(q, b, rangeEnd, start, out);
        NaiveSnoc(q, AggOf(fn), xs, nextStep, rangeEnd);
        PaddedNext(q, buf, rangeEnd);
        rangeEnd := rangeEnd + q.step;
        assert rangeEnd - nextStep - q.step == rangeEnd - q.step - nextStep;
      }
      NaiveTop(q, AggOf(fn), xs, nextStep, rangeEnd, q.lastStep);
      PaddedNext(q, buf, rangeEnd);
    }

    lemma TailStart(q: Query, b: Batch, nextStep: int, start0: nat)
      requires b == [] ==> ringBuf.s == 0 && start0 == 0
      requires b != [] ==> LookedAt(q, nextStep - q.step) && CutsAt(b, nextStep - q.step - q.range, start0)
      ensures start0 <= |b| && ringBuf.s <= |ringBuf.samples|
      ensures forall k :: 0 <= k < start0 ==> b[k].time < nextStep - q.step - q.range
      ensures forall k :: 0 <= k < ringBuf.s ==> ringBuf.samples[k].time < nextStep - q.step - q.range
    {
    }

    /** A record of which only staleness markers were read: the loop over the steps makes no
        turn, so that 0 counts as the last step, and the padding after the last record
        begins with the step after that. */
    method AggregateNothing(q: Query, lastRec: bool) returns (out: seq<Point<real>>)
      requires Sorted(ringBuf.samples) && ringBuf.s == 0
      modifies this, ringBuf
      ensures !lastRec ==> out == [] && prevStep == 0 && ringBuf.samples == old(ringBuf.samples)
      ensures lastRec ==>
                Stamps(out) == PaddedSteps(q, old(ringBuf.samples), q.step) && ringBuf.samples == [] && prevNil
    {
      var rangeEnd := 0;
      out := [];
      NoStamps();
      PaddedNext(q, ringBuf.samples, q.step);
      prevStep := rangeEnd;
      if lastRec {
        var nextStep := rangeEnd + q.step;
        if nextStep <= q.lastStep {
          assert ringBuf.samples + [] == ringBuf.samples;
          out := PopulateByLast(q, [], nextStep, 0);
        }
        ringBuf.Reset();
        prevStep, prevNil := 0, true;
      }
    }

    /** After the steps of a batch: the padding after the last batch of the series, or
        the samples to keep for the next one. */
    method EndBatch(q: Query, b: Batch, sameWindow: bool, lastRec: bool, rangeEnd: int, start: nat,
                    ghost hist: seq<Sample>, ghost same: bool)
      returns (tail: seq<Point<real>>)
      requires b != [] && ValidSamples(q, hist + b) && prevCount >= 0
      requires Carries(q, ringBuf.samples, hist, same) && (Meets(q, hist, b) ==> same)
      requires LookedAt(q, rangeEnd) && rangeEnd == LastStep(q, b) && CutsAt(b, rangeEnd - q.range, start)
      modifies this, ringBuf
      ensures tail == Unless(!lastRec, Naive(q, AggOf(fn), hist + b, rangeEnd + q.step, q.lastStep))
      ensures !lastRec ==>
                Kept(q, hist + b, sameWindow) && prevNil == old(prevNil) && prevValue == old(prevValue)
                && prevCount == old(prevCount)
    {
      hide Naive, InWindow, StepOf, Aligned, From, Agg, Sorted;
      ghost var kept := ringBuf.samples;
      KeptIsEnough(q, kept, hist, b, same);
      BatchAfter(kept, b);
      LastInWindow(q, hist, b);
      StepsMeet(q, hist, b);
      tail := [];
      prevStep := rangeEnd;
      if lastRec {
        var nextStep := rangeEnd + q.step;
        NaiveCong(q, AggOf(fn), kept + b, hist + b, nextStep, q.lastStep);
        if nextStep <= q.lastStep {
          tail := PopulateByLast(q, b, nextStep, start);
        } else {
          NaiveEmpty(q, AggOf(fn), hist + b, nextStep, q.lastStep);
        }
        ringBuf.Reset();
        prevStep, prevNil := 0, true;
      } else {
        KeepsCarrying(q, kept, hist, b, same, sameWindow);
        ringBuf.UpdateValue(q, b, sameWindow, rangeEnd, start);
      }
    }

    /** One batch of a series, after the samples `hist` of earlier batches. */
    method Aggregate(q: Query, b: Batch, firstStep: int, index: seq<int>, sameWindow: bool, lastRec: bool,
                     ghost hist: seq<Sample>, ghost same: bool, ghost held: bool, ghost course: Course, ghost t: int)
      returns (out: seq<Point<real>>, ghost value: real)
      requires b != [] && ValidSamples(q, hist + b) && Kept(q, hist, same) && (Meets(q, hist, b) ==> same)
      requires !course.Vague?
      requires course.Timely? ==> b[0].time <= q.endSample && held == Meets(q, hist, b)
      requires course.Overdue? ==> b[0].time > q.endSample
      requires !course.Garbled? ==> Ready(q, hist, same, held)
      requires course.Garbled? ==> t < firstStep && hist != [] && t <= LastStep(q, hist)
      requires firstStep == FirstStep(q, b) && |index| % 2 == 0 && IsIndex(q, b, index, |index| / 2)
      requires lastRec ==> !sameWindow
      modifies this, ringBuf
      ensures !lastRec ==> Kept(q, hist + b, sameWindow)
      ensures !lastRec && !course.Garbled? ==> Ready(q, hist + b, sameWindow, HeldAfter(q, hist, b, sameWindow, held))
      ensures course.Garbled? ==> AllAfter(out, t)
      ensures course.Timely? ==>
        out == Unless(FirstStep(q, b) == LastStep(q, b) && sameWindow, GapPoints(q, AggOf(fn), hist, b))
               + MainPoints(q, AggOf(fn), hist, b, sameWindow)
               + Unless(!lastRec, Naive(q, AggOf(fn), hist + b, LastStep(q, b) + q.step, q.lastStep))
      ensures course.Overdue? ==>
        var emits := Emits(q, hist, sameWindow, held);
        && out == Unless(!emits, GapPoints(q, AggOf(fn), hist, b) + [Point(q.endSample, value)])
        && (emits && Window(q, hist, q.endSample) != [] ==> value == Agg(fn, Window(q, hist, q.endSample)))
    {
      hide Naive, InWindow, StepOf, Aligned, From, Agg, Sorted, GapPoints, InTime, Padding, UpTo, NoneUpTo;
      ghost var kept, nil0 := ringBuf.samples, prevNil;
      KeptIsEnough(q, kept, hist, b, same);
      LastInWindow(q, hist, b);
      Prepared(q, b, hist, same);
      var start, rangeEnd;
      out, start, rangeEnd, value := MainWindows(q, b, firstStep, index, |index| / 2, sameWindow, hist, course, t);
      if course.Overdue? {
        LateFacts(q, AggOf(fn), kept, hist, b, same, prevStep);
        LateEnd(q, hist, b);
        NaiveEmpty(q, AggOf(fn), hist + b, rangeEnd + q.step, q.lastStep);
      } else if course.Timely? {
        SameGap(q, AggOf(fn), kept, hist, b, same, sameWindow, prevStep, nil0);
      } else {
        StepsMeet(q, hist, b);
        NaiveSpan(q, AggOf(fn), hist + b, rangeEnd + q.step, q.lastStep, t);
      }
      var tail := EndBatch(q, b, sameWindow, lastRec, rangeEnd, start, hist, same);
      out := out + tail;
    }

    lemma Prepared(q: Query, b: Batch, hist: seq<Sample>, same: bool)
      requires b != [] && ValidSamples(q, hist + b) && Kept(q, hist, same) && (Meets(q, hist, b) ==> same)
      ensures Sorted(ringBuf.samples)
      ensures b[0].time <= q.endSample ==> UpTo(ringBuf.samples, FirstStep(q, b))
      ensures b[0].time <= q.endSample && Ready(q, hist, same, Meets(q, hist, b)) ==> InTime(q, b, hist)
      ensures b[0].time > q.endSample ==>
        FirstStep(q, b) == LastStep(q, b) == q.endSample && Window(q, b, q.endSample) == []
        && NoneUpTo(b, LastStep(q, b))
      ensures prevNil && prevStep + q.step <= FirstStep(q, b) - q.step ==> UpTo(ringBuf.samples, prevStep)
    {
      hide Naive, InWindow, StepOf, Aligned, From, Agg, Sorted, Enough;
      BatchAfter(hist, b);
      if b[0].time <= q.endSample {
        BatchFacts(q, ringBuf.samples, hist, b, same);
        assert hist != [] ==> hist[|hist| - 1].time < b[0].time;
      } else {
        LateFacts(q, AggOf(fn), ringBuf.samples, hist, b, same, prevStep);
        Ascending(b);
      }
    }
  }

  function Stamps(out: seq<Point<real>>): seq<int> {
    seq(|out|, i requires 0 <= i < |out| => out[i].ts)
  }

  /** The steps from `from` on for which the buffer is not behind the window. */
  ghost function PaddedSteps(q: Query, kept: seq<Sample>, from: int): seq<int>
    decreases q.lastStep - from
  {
    if from > q.lastStep then [] else Unless(!Reaches(q, kept, from), [from]) + PaddedSteps(q, kept, from + q.step)
  }

  lemma PaddedNext(q: Query, kept: seq<Sample>, from: int)
    ensures from <= q.lastStep ==>
              PaddedSteps(q, kept, from)
              == Unless(!Reaches(q, kept, from), [from]) + PaddedSteps(q, kept, from + q.step)
    ensures from > q.lastStep ==> PaddedSteps(q, kept, from) == []
  {
  }

  lemma {:induction false} NothingPadded(q: Query, kept: seq<Sample>, from: int)
    ensures PaddedSteps(q, kept, from) == [] <==> from > q.lastStep || !Reaches(q, kept, from)
    decreases q.lastStep - from
  {
    if from <= q.lastStep && !Reaches(q, kept, from) {
      NothingPadded(q, kept, from + q.step);
    }
  }

  /** A last record of markers only, for a query that begins after one step length: what is
      padded for it is wrong, so the result is the reference if and only if the buffer is
      behind that step and nothing was due after the batches. */
  lemma MarkersLast(q: Query, f: WindowFn<real>, bs: seq<Batch>, kept: seq<Sample>, out: seq<Point<real>>,
                    tail: seq<Point<real>>)
    requires ValidSeries(q, bs) && bs != [] && q.step < q.startSample
    requires Stamps(tail) == PaddedSteps(q, kept, q.step)
    ensures out + tail == Expected(q, f, bs)
       <==> (q.step > q.lastStep || !Reaches(q, kept, q.step)) && out == Expected(q, f, bs)
  {
    hide Reaches, Naive, LastStep, Flat;
    NothingPadded(q, kept, q.step);
    NaiveSpan(q, f, Flat(bs), q.startSample, Max(LastStep(q, bs[|bs| - 1]), q.lastStep), q.step);
    if tail == [] {
      assert out + tail == out;
    } else {
      assert Stamps(tail)[0] == q.step;
      assert (out + tail)[|out|].ts == q.step;
    }
  }

  lemma NoStamps()
    ensures Stamps([]) == []
  {
  }

  /** After the batch, with the buffer out of reach: the rest of the batch. */
  lemma PartTail(q: Query, fn: OverTimeFn, kept: seq<Sample>, b: Batch, te: int, start: nat)
    requires b != [] && Sorted(kept + b) && b[|b| - 1].time < te
    requires CutsAt(b, te - q.range, start)
    requires start > 0 || !Reaches(q, kept, te)
    ensures PointAt(q, AggOf(fn), kept + b, te) == if start < |b| then [Point(te, Agg(fn, b[start..|b|]))] else []
  {
    hide InWindow, Agg, Sorted;
    TailWindow(q, kept, b, te, start);
    assert [] + b[start..] == b[start..|b|];
  }

  /** After the batch, with the buffer in reach: its rest and the whole batch. */
  lemma WholeTail(q: Query, fn: OverTimeFn, kept: seq<Sample>, b: Batch, te: int, s: nat)
    requires b != [] && Sorted(kept + b) && b[|b| - 1].time < te
    requires CutsAt(kept, te - q.range, s) && Reaches(q, kept, te)
    ensures s < |kept| && b[0..|b|] == b
    ensures PointAt(q, AggOf(fn), kept + b, te)
         == [Point(te, Merge(fn, Agg(fn, kept[s..|kept|]), Agg(fn, b), |kept| - s, |b|))]
  {
    hide InWindow, Agg;
    BatchAfter(kept, b);
    TailWindow(q, kept, b, te, 0);
    WholeWindow(q, kept, b, te, s);
    assert kept[s..] == kept[s..|kept|] && b[0..] == b;
    MergeIsWhole(fn, kept[s..], b);
  }

  /** A point for the last step although nothing is in its window. */
  ghost predicate Spurious(q: Query, bs: seq<Batch>, k: nat)
    requires ValidSeries(q, bs) && k < |bs|
  {
    EmitsAt(q, bs, k) && Window(q, Flat(bs[..k]), q.endSample) == []
  }

  /** The point of the last step is due and a batch after that step does not give it. */
  ghost predicate DropsFinal(q: Query, bs: seq<Batch>)
    requires ValidSeries(q, bs) && bs != []
  {
    var k := |bs| - 1;
    Late(q, bs, k) && !EmitsAt(q, bs, k) && Window(q, Flat(bs[..k]), q.endSample) != []
  }

  /** The last step comes out right: if the last batch is after it, there is a point for
      it exactly if something is in its window. With one such batch the point is right
      unless the step was already going on; with two the reducer makes one up for an
      unreached window; with more there is never one. */
  ghost predicate FinalStepRight(q: Query, bs: seq<Batch>)
    requires ValidSeries(q, bs) && bs != []
  {
    var n, due := |bs|, Window(q, Flat(bs), q.endSample) != [];
    Late(q, bs, n - 1) ==>
      if n >= 2 && Late(q, bs, n - 2) then !due && ((n >= 3 && Late(q, bs, n - 3))
                                                 || Reaches(q, Flat(bs[..n - 2]), q.endSample))
      else if due then !(n >= 2 && Continues(q, bs, n - 2))
      else !Reaches(q, Flat(bs[..n - 1]), q.endSample)
  }

  /** The series for which the reducer gives the reference result. */
  ghost predicate Clean(q: Query, bs: seq<Batch>)
    requires ValidSeries(q, bs) && bs != []
  {
    (forall k :: 0 < k < |bs| ==> !DropsGap(q, bs, k)) && FinalStepRight(q, bs)
  }

  lemma FinalCases(q: Query, bs: seq<Batch>)
    requires ValidSeries(q, bs) && bs != [] && Late(q, bs, |bs| - 1)
    ensures FinalStepRight(q, bs) <==> (EmitsAt(q, bs, |bs| - 1)
                                   <==> Window(q, Flat(bs[..|bs| - 1]), q.endSample) != [])
  {
    hide InWindow, StepOf, Aligned, Window;
    var n := |bs|;
    LateSteps(q, bs, n - 1);
    assert bs[..n] == bs;
    ReachedIfDue(q, bs, n - 1);
    if n >= 2 && Late(q, bs, n - 2) {
      LateSteps(q, bs, n - 2);
      ReachedIfDue(q, bs, n - 2);
      if n >= 3 && Late(q, bs, n - 3) {
        LateSteps(q, bs, n - 3);
      } else {
        HeldMeans(q, bs, n - 2);
      }
    } else {
      HeldMeans(q, bs, n - 1);
    }
  }

  /** What a batch gives: its pieces, or a made-up point at the end. */
  ghost predicate Gives(q: Query, fn: OverTimeFn, bs: seq<Batch>, k: nat, out: seq<Point<real>>)
    requires ValidSeries(q, bs) && k < |bs|
  {
    if Spurious(q, bs, k) then out != [] && out[|out| - 1].ts == q.endSample
    else
      out == Unless(GapLoss(q, bs)(k), GapPoints(q, AggOf(fn), Flat(bs[..k]), bs[k]))
             + Unless(MainLoss(q, bs)(k), MainPoints(q, AggOf(fn), Flat(bs[..k]), bs[k], Continues(q, bs, k)))
             + Unless(k + 1 < |bs|, Naive(q, AggOf(fn), Flat(bs), LastStep(q, bs[k]) + q.step, q.lastStep))
  }

  /** A batch after the last step: its pieces, unless it makes up a point. */
  lemma LateOut(q: Query, fn: OverTimeFn, bs: seq<Batch>, k: nat, out: seq<Point<real>>, value: real)
    requires ValidSeries(q, bs) && k < |bs| && Late(q, bs, k)
    requires out == Unless(!EmitsAt(q, bs, k), GapPoints(q, AggOf(fn), Flat(bs[..k]), bs[k])
                           + [Point(q.endSample, value)])
    requires EmitsAt(q, bs, k) && Window(q, Flat(bs[..k]), q.endSample) != [] ==>
               value == Agg(fn, Window(q, Flat(bs[..k]), q.endSample))
    ensures Gives(q, fn, bs, k, out)
  {
    hide Naive, InWindow, StepOf, GapPoints, MainPoints, Agg, Window, Flat, Held;
    LateSteps(q, bs, k);
    LateBatch(q, AggOf(fn), bs, k);
    NaiveEmpty(q, AggOf(fn), Flat(bs), LastStep(q, bs[k]) + q.step, q.lastStep);
  }

  /** What is known about batch `k`. */
  ghost function CourseOf(q: Query, records: seq<Batch>, k: nat): Course
    requires ValidRecords(q, records) && k < |records|
  {
    if !RightBefore(q, records, k) then Garbled else if Late(q, Filtered(records), k) then Overdue else Timely
  }

  /** The state of the reducer before batch `k`. */
  ghost predicate Poised(r: IncReducer, q: Query, records: seq<Batch>, k: nat)
    requires ValidRecords(q, records) && k <= |records|
    reads r, r.ringBuf
  {
    var hist, same := Flat(Filtered(records)[..k]), k > 0 && SeenOn(q, records, k - 1);
    r.Kept(q, hist, same) && (RightBefore(q, records, k) ==> r.Ready(q, hist, same, Held(q, Filtered(records), k)))
  }

  lemma FirstPoised(r: IncReducer, q: Query, records: seq<Batch>)
    requires ValidRecords(q, records) && r.Ready(q, [], false, false)
    ensures Poised(r, q, records, 0)
  {
    NothingFlat(Filtered(records));
  }

  /** One turn of the cursor loop: record `k`, with a look at the next one. After a wrong
      look all points are after step `t`. */
  method ReduceBatch(r: IncReducer, q: Query, records: seq<Batch>, k: nat, ghost t: int) returns (out: seq<Point<real>>)
    requires ValidRecords(q, records) && k < |records| && Poised(r, q, records, k)
    requires !RightBefore(q, records, k) ==>
               k > 0 && t < FirstStep(q, Filtered(records)[k]) && t <= LastStep(q, Filtered(records)[k - 1])
    modifies r, r.ringBuf
    ensures k + 1 < |records| ==> Poised(r, q, records, k + 1)
    ensures RightBefore(q, records, k + 1) ==> Gives(q, r.fn, Filtered(records), k, out)
    ensures RightBefore(q, records, k) && Misled(q, records, k) ==> AllBefore(out, LastStep(q, Filtered(records)[k]))
    ensures !RightBefore(q, records, k) ==> AllAfter(out, t)
  {
    hide Naive, InWindow, StepOf, Aligned, GapPoints, MainPoints, From, Agg, Window, GapLoss, MainLoss, Held, HeldAfter,
      Flat,
         ValidSamples, Meets, NotStale, SeenOn, IncReducer.Kept, IncReducer.Ready, Sorted;
    ghost var bs: seq<Batch> := Filtered(records);
    ghost var hist := Flat(bs[..k]);
    ghost var course := CourseOf(q, records, k);
    BeforeBatch(q, bs, k);
    PrefixValid(q, bs, k);
    MeetsIsSeen(q, records, k);
    LookErrs(q, records, k);
    var b, same, firstStep, index, n := PrepareRecord(q, records, k);
    ghost var value;
    out, value := r.Aggregate(q, b, firstStep, index, same, k + 1 == |records|, hist, k > 0
                           && SeenOn(q, records, k - 1),
                              Held(q, bs, k), course, t);
    assert k + 1 == |bs| ==> bs[..k + 1] == bs;
    if RightBefore(q, records, k) {
      if Misled(q, records, k) {
        MisledBatch(q, AggOf(r.fn), records, k);
      } else if Late(q, bs, k) {
        LateOut(q, r.fn, bs, k, out, value);
      } else {
        InTimePattern(q, bs, k);
      }
    }
  }

  lemma OnlyAtEnd(q: Query, bs: seq<Batch>, k: nat)
    requires ValidSeries(q, bs) && k < |bs|
    ensures Spurious(q, bs, k) ==> k + 1 == |bs|
  {
    hide InWindow, StepOf, Window, Flat;
    if Spurious(q, bs, k) {
      LateSteps(q, bs, k);
    }
  }

  lemma SpuriousIsWrong(q: Query, fn: OverTimeFn, bs: seq<Batch>, out: seq<Point<real>>)
    requires ValidSeries(q, bs) && bs != [] && Spurious(q, bs, |bs| - 1)
    requires out != [] && out[|out| - 1].ts == q.endSample
    ensures out != Expected(q, AggOf(fn), bs) && !Clean(q, bs)
  {
    hide InWindow, StepOf, Aligned, Naive, Held, Flat, Window, Agg;
    var n := |bs|;
    LateSteps(q, bs, n - 1);
    FinalCases(q, bs);
    assert bs[..n] == bs;
    GridNext(q, q.endSample);
    NaiveSnoc(q, AggOf(fn), Flat(bs), q.startSample, q.endSample);
    NaiveBounds(q, AggOf(fn), Flat(bs), q.startSample, q.endSample - q.step);
  }

  lemma DropsAreExact(q: Query, fn: OverTimeFn, bs: seq<Batch>)
    requires ValidSeries(q, bs) && bs != [] && !Spurious(q, bs, |bs| - 1)
    ensures Emitted(q, AggOf(fn), bs, |bs|, GapLoss(q, bs), MainLoss(q, bs))
            + Naive(q, AggOf(fn), Flat(bs), LastStep(q, bs[|bs| - 1]) + q.step, q.lastStep)
            == Expected(q, AggOf(fn), bs)
       <==> Clean(q, bs)
  {
    hide Naive, StepOf, DropsGap, SkipsGap, GapLoss, MainLoss, Expected, Emitted, Window, Flat, EmitsAt, FinalStepRight,
      GapPoints;
    var n := |bs|;
    LossesAreExact(q, AggOf(fn), bs);
    forall k | 0 < k < n
      ensures DropsGap(q, bs, k) <==> GapPoints(q, AggOf(fn), Flat(bs[..k]), bs[k]) != [] && SkipsGap(q, bs, k)
    {
      DropIsDue(q, fn, bs, k);
    }
    if Late(q, bs, n - 1) {
      FinalCases(q, bs);
    } else {
      InTimeIsRight(q, bs);
    }
  }

  lemma DropIsDue(q: Query, fn: OverTimeFn, bs: seq<Batch>, k: nat)
    requires ValidSeries(q, bs) && 0 < k < |bs|
    ensures DropsGap(q, bs, k) <==> GapPoints(q, AggOf(fn), Flat(bs[..k]), bs[k]) != [] && SkipsGap(q, bs, k)
  {
    hide Naive, InWindow, StepOf, Aligned, Agg, GapPoints, SkipsGap;
    PrefixValid(q, bs, k);
    GapIsDue(q, AggOf(fn), 1, Flat(bs[..k]), bs[k]);
    FlatStep(bs, k - 1);
  }

  lemma InTimeIsRight(q: Query, bs: seq<Batch>)
    requires ValidSeries(q, bs) && bs != [] && !Late(q, bs, |bs| - 1)
    ensures FinalStepRight(q, bs)
  {
  }

  /** The output after the first `k` batches: their pieces and, at the end, the padding
      after the last one or a made-up point. After a wrong look at the next record the due
      step `lost` is missing. */
  ghost predicate SoFar(q: Query, fn: OverTimeFn, records: seq<Batch>, k: nat, out: seq<Point<real>>, lost: int)
    requires ValidRecords(q, records) && k <= |records|
  {
    var bs := Filtered(records);
    if !RightBefore(q, records, k) then k > 0 && Amiss(q, AggOf(fn), bs, k, lost, out)
    else if 0 < k == |bs| && Spurious(q, bs, k - 1) then out != [] && out[|out| - 1].ts == q.endSample
    else
      out == Emitted(q, AggOf(fn), bs, k, GapLoss(q, bs), MainLoss(q, bs))
             + (if 0 < k == |bs| then Naive(q, AggOf(fn), Flat(bs), LastStep(q, bs[k - 1]) + q.step, q.lastStep)
                else [])
  }

  lemma StartsWithNothing(q: Query, fn: OverTimeFn, records: seq<Batch>, lost: int)
    requires ValidRecords(q, records)
    ensures SoFar(q, fn, records, 0, [], lost) && Flat(Filtered(records)[..0]) == [] && !Held(q, Filtered(records), 0)
  {
    var bs := Filtered(records);
    EmittedNone(q, AggOf(fn), bs, GapLoss(q, bs), MainLoss(q, bs));
    NothingFlat(bs);
    HeldNever(q, bs);
  }

  lemma RightOn(q: Query, fn: OverTimeFn, records: seq<Batch>, k: nat, out: seq<Point<real>>, lost: int,
                points: seq<Point<real>>)
    requires ValidRecords(q, records) && k < |records| && SoFar(q, fn, records, k, out, lost)
    requires RightBefore(q, records, k + 1) && Gives(q, fn, Filtered(records), k, points)
    ensures SoFar(q, fn, records, k + 1, out + points, lost)
  {
    hide StepOf, GapPoints, MainPoints, GapLoss, MainLoss, Emitted, Naive, ValidSamples, Flat, Spurious, NotStale,
      Sorted, Misled;
    var bs := Filtered(records);
    assert RightBefore(q, records, k);
    EmittedStep(q, AggOf(fn), bs, k, GapLoss(q, bs), MainLoss(q, bs));
    OnlyAtEnd(q, bs, k);
  }

  lemma MisledNow(q: Query, fn: OverTimeFn, records: seq<Batch>, k: nat, out: seq<Point<real>>, lost: int,
                  points: seq<Point<real>>)
    requires ValidRecords(q, records) && k < |records| && SoFar(q, fn, records, k, out, lost)
    requires RightBefore(q, records, k) && Misled(q, records, k) && AllBefore(points, LastStep(q, Filtered(records)[k]))
    ensures SoFar(q, fn, records, k + 1, out + points, LastStep(q, Filtered(records)[k]))
  {
    hide StepOf, Emitted, Naive, ValidSamples, Flat, Spurious, NotStale, Sorted, SeenOn, Window, Amiss, Agg;
    var bs: seq<Batch> := Filtered(records);
    EmittedBefore(q, AggOf(fn), bs, k, k, GapLoss(q, bs), MainLoss(q, bs));
    LookErrs(q, records, k);
    StepIsOver(q, bs, k);
    LastStepDue(q, bs, k);
    MisledLoses(q, AggOf(fn), records, k, out, points);
    assert !RightBefore(q, records, k + 1);
  }

  lemma GarbledOn(q: Query, fn: OverTimeFn, records: seq<Batch>, k: nat, out: seq<Point<real>>, lost: int,
                  points: seq<Point<real>>)
    requires ValidRecords(q, records) && k < |records| && SoFar(q, fn, records, k, out, lost)
    requires !RightBefore(q, records, k) && AllAfter(points, lost)
    ensures SoFar(q, fn, records, k + 1, out + points, lost)
  {
    hide StepOf, Emitted, Naive, ValidSamples, Flat, Spurious, NotStale, Sorted, Misled, Amiss;
    AmissStays(q, AggOf(fn), Filtered(records), k, lost, out, points);
    assert !RightBefore(q, records, k + 1);
  }

  lemma EndsExactly(q: Query, fn: OverTimeFn, records: seq<Batch>, out: seq<Point<real>>, lost: int)
    requires ValidRecords(q, records) && records != [] && SoFar(q, fn, records, |records|, out, lost)
    ensures out == Expected(q, AggOf(fn), Filtered(records))
       <==> LooksThrough(q, records) && Clean(q, Filtered(records))
  {
    hide StepOf, Emitted, Expected, Clean, Naive, ValidSamples, Flat, Spurious, NotStale, Sorted, Misled, LooksThrough,
      Amiss;
    var bs := Filtered(records);
    RightLook(q, records);
    if !RightBefore(q, records, |bs|) {
      AmissIsWrong(q, AggOf(fn), bs, lost, out);
    } else if Spurious(q, bs, |bs| - 1) {
      SpuriousIsWrong(q, fn, bs, out);
    } else {
      DropsAreExact(q, fn, bs);
    }
  }

  lemma LostBehind(q: Query, fn: OverTimeFn, records: seq<Batch>, k: nat, out: seq<Point<real>>, lost: int)
    requires ValidRecords(q, records) && k < |records| && SoFar(q, fn, records, k, out, lost)
    ensures !RightBefore(q, records, k) ==>
      k > 0 && lost < FirstStep(q, Filtered(records)[k]) && lost <= LastStep(q, Filtered(records)[k - 1])
  {
    hide StepOf, Emitted, Naive, ValidSamples, Flat, Spurious, NotStale, Sorted, Misled, Window;
  }

  /** Every batching of a series gives, at every step, the value of the whole window of
      samples that are no staleness markers, exactly if the look at the next record is
      never misled by a marker, no due gap is dropped and the last step comes out right. */
  method Evaluate(fn: OverTimeFn, q: Query, records: seq<Batch>) returns (out: seq<Point<real>>)
    requires ValidRecords(q, records)
    ensures records == [] ==> out == []
    ensures records != [] ==>
      (out == Expected(q, AggOf(fn), Filtered(records)) <==> LooksThrough(q, records) && Clean(q, Filtered(records)))
    ensures records != [] ==>
      (Answers(q, Fresh(records), MeaningOf(fn), out) <==> LooksThrough(q, records) && Clean(q, Filtered(records)))
  {
    hide StepOf, SoFar, Gives, Expected, Clean, ValidSamples, Sorted, Flat, Poised, Held, NotStale, LooksThrough,
      RightBefore, Misled, Answers, Computes, IncReducer.Ready;
    ghost var bs: seq<Batch> := Filtered(records);
    ghost var lost := 0;
    out := [];
    var r := new IncReducer(fn);
    StartsWithNothing(q, fn, records, lost);
    FirstPoised(r, q, records);
    for k := 0 to |records|
      invariant fresh(r) && fresh(r.ringBuf) && r.fn == fn
      invariant k < |records| ==> Poised(r, q, records, k)
      invariant SoFar(q, fn, records, k, out, lost) && (k == 0 ==> out == [])
    {
      LostBehind(q, fn, records, k, out, lost);
      var points := ReduceBatch(r, q, records, k, lost);
      if !RightBefore(q, records, k) {
        GarbledOn(q, fn, records, k, out, lost, points);
      } else if Misled(q, records, k) {
        MisledNow(q, fn, records, k, out, lost, points);
        lost := LastStep(q, bs[k]);
      } else {
        RightAgain(q, records, k);
        RightOn(q, fn, records, k, out, lost, points);
      }
      out := out + points;
    }
    if records != [] {
      EndsExactly(q, fn, records, out, lost);
      FunctionsMean(fn);
      RecordsAnswer(q, AggOf(fn), MeaningOf(fn), records, out);
    }
  }
}

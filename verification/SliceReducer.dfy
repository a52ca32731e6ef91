/**
  The reducer behind rate, increase, delta, deriv and the other functions that
  need every sample of a window.  It is modelled with an uninterpreted merge
  function: the result is the list of merge calls with at least one sample.
 */
module SliceReducer {
  import opened Multiples
  import opened Options
  import opened PromSteps
  import opened PromWindows
  import opened PromStreaming
  import opened VectorCursor
  import opened StaleMarkers
  import opened PromAnswers

  /** One call of the merge function: the samples handed over (the buffered ones
      followed by those of the batch) and the sample count passed with them. */
  datatype Call = Call(samples: seq<Sample>, count: int)

  /** The reference: one call per step whose window is not empty. */
  function CallOf(w: seq<Sample>): Option<Call> {
    if w == [] then None else Some(Call(w, |w|))
  }

  /** What a call has to be for a window: all its samples in order, and their number. */
  ghost predicate IsCall(w: seq<Sample>, c: Call) {
    w != [] && c.samples == w && c.count == |c.samples|
  }

  /** Every call passes the number of its samples, and at least one of them. */
  ghost predicate Counted(out: seq<Point<Call>>) {
    forall i :: 0 <= i < |out| ==> out[i].value.count == |out[i].value.samples| > 0
  }

  lemma {:induction false} NaiveCounted(q: Query, xs: seq<Sample>, from: int, till: int)
    ensures Counted(Naive(q, CallOf, xs, from, till))
    decreases till - from
  {
    hide Window;
    if from <= till {
      NaiveCounted(q, xs, from + q.step, till);
    }
  }

  lemma CallsMean()
    ensures Computes(CallOf, IsCall)
  {
  }

  function MiddleWindow(out: seq<Point<Call>>, ts: int, prev: seq<Sample>, curr: seq<Sample>,
                        count: int): seq<Point<Call>> {
    if count > 0 then out + [Point(ts, Call(prev + curr, count))] else out
  }

  lemma MiddleWindowIsPoint(q: Query, out: seq<Point<Call>>, xs: seq<Sample>, ts: int, prev: seq<Sample>,
                            curr: seq<Sample>, count: int)
    requires prev + curr == Window(q, xs, ts) && count == |prev| + |curr|
    ensures MiddleWindow(out, ts, prev, curr, count) == out + PointAt(q, CallOf, xs, ts)
  {
  }

  class SliceReducer {
    var prevStep: int
    const ringBuf: FloatBuffer

    constructor ()
      ensures fresh(ringBuf) && forall q: Query :: Ready(q, [], false)
    {
      prevStep := 0;
      ringBuf := new FloatBuffer();
    }

    /** The state between two batches: `hist` has been read, and `same` tells
        whether its last step goes on. */
    ghost predicate Ready(q: Query, hist: seq<Sample>, same: bool)
      reads this, ringBuf
    {
      && Carries(q, ringBuf.samples, hist, same)
      && (hist != [] ==> prevStep == LastStep(q, hist))
      && ringBuf.s == 0 && ringBuf.e == 0
    }

    /** The buffer has been searched for the window that ends at `s`. */
    ghost predicate LookedAt(q: Query, s: int)
      reads this, ringBuf
    {
      && ringBuf.Before(s - q.range, s)
      && (Reaches(q, ringBuf.samples, s) ==> CutsAt(ringBuf.samples, s - q.range, ringBuf.s))
    }

    /** The window of one step: what the buffer and the batch contribute. */
    method OneWindow(q: Query, b: Batch, rangeEnd: int, start: int, end: int)
      returns (skip: bool, prev: seq<Sample>, curr: seq<Sample>, count: int)
      requires Sorted(ringBuf.samples + b) && Sorted(ringBuf.samples)
      requires IsInterval(q, b, rangeEnd, start, end)
      requires ringBuf.Before(rangeEnd - q.range, rangeEnd)
      modifies ringBuf
      ensures ringBuf.samples == old(ringBuf.samples)
      ensures ringBuf.Before(rangeEnd - q.range, rangeEnd)
      ensures prev + curr == Window(q, ringBuf.samples + b, rangeEnd) && count == |prev| + |curr|
      ensures skip ==> count == 0
      ensures skip <==> start == end && !Reaches(q, ringBuf.samples, rangeEnd)
      ensures Reaches(q, ringBuf.samples, rangeEnd) ==> CutsAt(ringBuf.samples, rangeEnd - q.range, ringBuf.s)
    {
      hide InWindow, Aligned;
      var rangeStart := rangeEnd - q.range;
      curr := b[start..end];
      WindowSlice(b, rangeStart, rangeEnd, start, end);
      WindowConcat(ringBuf.samples, b, rangeStart, rangeEnd);
      prev := [];
      skip := false;
      var bufNil := ringBuf.samples == [] || ringBuf.samples[|ringBuf.samples| - 1].time < rangeStart;
      if bufNil {
        WindowNone(ringBuf.samples, rangeStart, rangeEnd);
        skip := start == end;
        count := end - start;
      } else {
        ringBuf.UpdateIndex(rangeStart, rangeEnd);
        prev := ringBuf.samples[ringBuf.s..ringBuf.e];
        count := |curr| + |prev|;
      }
    }

    /** Pads the steps between the previous batch and this one. */
    method PopulateByPrevious(q: Query, firstStep: int) returns (out: seq<Point<Call>>)
      requires Sorted(ringBuf.samples)
      ensures out == Naive(q, CallOf, ringBuf.samples, prevStep + q.step, firstStep - q.step)
    {
      hide Naive, InWindow;
      var nextStep, lastStep := prevStep + q.step, firstStep - q.step;
      var m, n := 0, 0;
      var te := nextStep;
      out := [];
      NaiveEmpty(q, CallOf, ringBuf.samples, nextStep, te - q.step);
      while te <= lastStep
        invariant Aligned(te - nextStep, q.step)
        invariant 0 <= m <= |ringBuf.samples| && 0 <= n <= |ringBuf.samples|
        invariant forall k :: 0 <= k < m ==> ringBuf.samples[k].time < te - q.range
        invariant forall k :: 0 <= k < n ==> ringBuf.samples[k].time < te + 1
        invariant out == Naive(q, CallOf, ringBuf.samples, nextStep, te - q.step)
        invariant te == nextStep || te - q.step <= lastStep
        decreases lastStep + q.step - te
      {
        m := Advance(ringBuf.samples, m, te - q.range);
        n := Advance(ringBuf.samples, n, te + 1);
        CutsOrdered(ringBuf.samples, te - q.range, te + 1, m, n);
        WindowSlice(ringBuf.samples, te - q.range, te, m, n);
        MiddleWindowIsPoint(q, out, ringBuf.samples, te, ringBuf.samples[m..n], [], n - m);
        out := MiddleWindow(out, te, ringBuf.samples[m..n], [], n - m);
        NaiveSnoc(q, CallOf, ringBuf.samples, nextStep, te);
        te := te + q.step;
        assert te - nextStep - q.step == te - q.step - nextStep;
      }
      NaiveTop(q, CallOf, ringBuf.samples, nextStep, te, lastStep);
    }

    /** One turn of the loop over the steps of a batch. */
    method Step(q: Query, b: Batch, firstStep: int, start: int, end: int, first: bool, pending: bool, rangeEnd: int,
                out0: seq<Point<Call>>)
      returns (out: seq<Point<Call>>)
      requires Sorted(ringBuf.samples + b) && Sorted(ringBuf.samples)
      requires IsInterval(q, b, rangeEnd, start, end)
      requires (ringBuf.s == 0 && ringBuf.e == 0) || LookedAt(q, rangeEnd - q.step)
      modifies ringBuf
      ensures ringBuf.samples == old(ringBuf.samples)
      ensures LookedAt(q, rangeEnd)
      ensures pending ==> out == out0
      ensures !pending && !first ==> out == out0 + PointAt(q, CallOf, ringBuf.samples + b, rangeEnd)
      ensures !pending && first ==> out == out0 + Unless(start == end
                                                      && !Reaches(q, ringBuf.samples, rangeEnd),
                                                         Padding(q, CallOf, ringBuf.samples, prevStep, firstStep))
                                          + PointAt(q, CallOf, ringBuf.samples + b, rangeEnd)
    {
      hide Naive, InWindow, StepOf, Aligned, Sorted, PointAt;
      var bufCount := |ringBuf.samples|;
      var skip, prev, curr, count := OneWindow(q, b, rangeEnd, start, end);
      out := out0;
      if !skip && !pending {
        if first && bufCount > 0 {
          var padding := PopulateByPrevious(q, firstStep);
          out := out + padding;
        }
        MiddleWindowIsPoint(q, out, ringBuf.samples + b, rangeEnd, prev, curr, count);
        out := MiddleWindow(out, rangeEnd, prev, curr, count);
      } else {
        MiddleWindowIsPoint(q, [], ringBuf.samples + b, rangeEnd, prev, curr, count);
      }
      if bufCount == 0 {
        NoPadding(q, CallOf, prevStep, firstStep);
      }
    }

    /** The steps of the batch, with the padding before the first of them. */
    method MainWindows(q: Query, b: Batch, firstStep: int, index: seq<int>, n: nat, sameWindow: bool)
      returns (out: seq<Point<Call>>, start: nat, rangeEnd: int)
      requires b != [] && Sorted(ringBuf.samples + b) && Sorted(ringBuf.samples)
      requires firstStep == FirstStep(q, b) && IsIndex(q, b, index, n)
      requires b[0].time >= firstStep - q.range
      requires ringBuf.s == 0 && ringBuf.e == 0
      modifies ringBuf
      ensures ringBuf.samples == old(ringBuf.samples)
      ensures LookedAt(q, LastStep(q, b))
      ensures rangeEnd == LastStep(q, b) && CutsAt(b, LastStep(q, b) - q.range, start)
      ensures out == Unless(SkipsPadding(q, ringBuf.samples, b, sameWindow),
                            Padding(q, CallOf, ringBuf.samples, prevStep, firstStep))
                     + Naive(q, CallOf, ringBuf.samples + b, firstStep, DoneStep(q, b, sameWindow))
    {
      hide Naive, InWindow, StepOf, Aligned, Sorted, PointAt, Padding, LookedAt;
      ghost var xs := ringBuf.samples + b;
      ghost var gap := Unless(SkipsPadding(q, ringBuf.samples, b, sameWindow),
                              Padding(q, CallOf, ringBuf.samples, prevStep, firstStep));
      out := [];
      start := 0;
      rangeEnd := firstStep - q.step;
      for i := 0 to n
        invariant ringBuf.samples == old(ringBuf.samples)
        invariant i == 0 ==> out == [] && ringBuf.s == 0 && ringBuf.e == 0
        invariant i > 0 ==> rangeEnd == Nth(q, firstStep, i - 1)
        invariant i > 0 ==> LookedAt(q, rangeEnd)
        invariant i > 0 ==> CutsAt(b, rangeEnd - q.range, start)
        invariant i > 0 ==> out == gap + Naive(q, CallOf, xs, firstStep, if i == n && sameWindow then rangeEnd - q.step
                                               else rangeEnd)
      {
        rangeEnd := StepAt(q, firstStep, i);
        assert IntervalAt(q, b, index, i);
        start := index[2 * i];
        ghost var before := out;
        out := Step(q, b, firstStep, start, index[2 * i + 1], i == 0, i == n - 1 && sameWindow, rangeEnd, out);
        if i == 0 && n == 1 {
          assert sameWindow ==> gap == [];
        }
        MainSnoc(q, CallOf, xs, firstStep, i, rangeEnd, gap, before, out, i == n - 1 && sameWindow);
      }
    }

    /** One padded step after the last batch. */
    method TailStep(q: Query, b: Batch, rangeEnd: int, start0: nat, out0: seq<Point<Call>>)
      returns (start: nat, out: seq<Point<Call>>)
      requires b != [] && Sorted(ringBuf.samples + b) && Sorted(ringBuf.samples) && Sorted(b)
      requires b[|b| - 1].time < rangeEnd
      requires start0 <= |b| && ringBuf.s <= |ringBuf.samples|
      requires forall k :: 0 <= k < start0 ==> b[k].time < rangeEnd - q.range
      requires forall k :: 0 <= k < ringBuf.s ==> ringBuf.samples[k].time < rangeEnd - q.range
      modifies ringBuf`s
      ensures start <= |b| && ringBuf.s <= |ringBuf.samples|
      ensures forall k :: 0 <= k < start ==> b[k].time < rangeEnd - q.range
      ensures forall k :: 0 <= k < ringBuf.s ==> ringBuf.samples[k].time < rangeEnd - q.range
      ensures Reaches(q, ringBuf.samples, rangeEnd) ==> start0 == 0 && start == start0
      ensures var hit := Reaches(q, ringBuf.samples, rangeEnd) && old(ringBuf.s) >= rangeEnd - q.range;
              && (hit ==> Shortened(out, out0, PointAt(q, CallOf, ringBuf.samples + b, rangeEnd)))
              && (!hit ==> out == out0 + PointAt(q, CallOf, ringBuf.samples + b, rangeEnd))
              && (!hit && Reaches(q, ringBuf.samples, rangeEnd) ==>
                    CutsAt(ringBuf.samples, rangeEnd - q.range, ringBuf.s))
    {
      hide InWindow, Aligned;
      var rangeStart := rangeEnd - q.range;
      var buf := ringBuf.samples;
      ghost var w := Window(q, buf + b, rangeEnd);
      start, out := start0, out0;
      var bufNil := start > 0 || buf == [] || buf[|buf| - 1].time < rangeStart;
      // the position in the buffer is compared with a time here
      if bufNil || ringBuf.s >= rangeStart {
        start := Advance(b, start, rangeStart);
        TailWindow(q, buf, b, rangeEnd, start);
        if start < |b| {
          out := MiddleWindow(out, rangeEnd, [], b[start..], |b| - start);
        }
      } else {
        ringBuf.s := Advance(buf, ringBuf.s, rangeStart);
        BatchAfter(buf, b);
        TailWindow(q, buf, b, rangeEnd, 0);
        WholeWindow(q, buf, b, rangeEnd, ringBuf.s);
        if ringBuf.s < |buf| {
          out := MiddleWindow(out, rangeEnd, buf[ringBuf.s..], b, |b| + |buf| - ringBuf.s);
        }
      }
    }

    /** Pads the steps after the last batch. */
    method PopulateByLast(q: Query, b: Batch, nextStep: int, start0: nat) returns (out: seq<Point<Call>>)
      requires b != [] && Sorted(ringBuf.samples + b) && Sorted(ringBuf.samples) && Sorted(b)
      requires ringBuf.Before(nextStep - q.step - q.range, nextStep)
      requires CutsAt(b, nextStep - q.step - q.range, start0)
      requires Reaches(q, ringBuf.samples, nextStep - q.step) ==>
                 CutsAt(ringBuf.samples, nextStep - q.step - q.range, ringBuf.s)
      requires b[|b| - 1].time < nextStep
      modifies ringBuf`s
      ensures Tracks(out, Naive(q, CallOf, ringBuf.samples + b, nextStep, q.lastStep),
                     Confuses(q, ringBuf.samples, start0, nextStep, q.lastStep))
    {
      hide Naive, InWindow, StepOf, Confuses, PointAt;
      var start: nat := start0;
      ghost var buf, xs := ringBuf.samples, ringBuf.samples + b;
      out := [];
      var rangeEnd := nextStep;
      NaiveEmpty(q, CallOf, xs, nextStep, rangeEnd - q.step);
      ConfusesNothing(q, buf, start0, nextStep, rangeEnd - q.step);
      while rangeEnd <= q.lastStep
        invariant Aligned(rangeEnd - nextStep, q.step)
        invariant rangeEnd == nextStep || rangeEnd - q.step <= q.lastStep
        invariant start <= |b|
        invariant ringBuf.samples == buf && ringBuf.s <= |buf|
        invariant forall k :: 0 <= k < start ==> b[k].time < rangeEnd - q.step - q.range
        invariant forall k :: 0 <= k < ringBuf.s ==> buf[k].time < rangeEnd - q.step - q.range
        invariant Reaches(q, buf, rangeEnd - q.step) ==> start == start0
        invariant Tracks(out, Naive(q, CallOf, xs, nextStep, rangeEnd - q.step),
                         Confuses(q, buf, start0, nextStep, rangeEnd - q.step))
        invariant Reaches(q, buf, rangeEnd - q.step) && !Confuses(q, buf, start0, nextStep, rangeEnd - q.step)
              ==> CutsAt(buf, rangeEnd - q.step - q.range, ringBuf.s)
        decreases q.lastStep + q.step - rangeEnd
      {
        ghost var s0, out0 := ringBuf.s, out;
        start, out := TailStep(q, b, rangeEnd, start, out);
        ConfusesAt(q, buf, start0, nextStep, rangeEnd, s0);
        NaiveSnoc(q, CallOf, xs, nextStep, rangeEnd);
        PointCounted(q, xs, rangeEnd);
        ConfusesSnoc(q, buf, start0, nextStep, rangeEnd);
        TracksSnoc(out0, Naive(q, CallOf, xs, nextStep, rangeEnd - q.step),
                   Confuses(q, buf, start0, nextStep, rangeEnd - q.step),
                   out, PointAt(q, CallOf, xs, rangeEnd), Reaches(q, buf, rangeEnd) && s0 >= rangeEnd - q.range);
        rangeEnd := rangeEnd + q.step;
        assert rangeEnd - nextStep - q.step == rangeEnd - q.step - nextStep;
      }
      NaiveTop(q, CallOf, xs, nextStep, rangeEnd, q.lastStep);
      ConfusesTop(q, buf, start0, nextStep, rangeEnd, q.lastStep);
    }

    /** The padding after the last batch, if there are steps left. */
    method AfterLast(q: Query, b: Batch, rangeEnd: int, start: nat, ghost hist: seq<Sample>)
      returns (tail: seq<Point<Call>>)
      requires b != [] && Sorted(ringBuf.samples + b) && Enough(q, ringBuf.samples, hist, b)
      requires rangeEnd == LastStep(q, b) && FirstStep(q, b) <= rangeEnd
      requires LookedAt(q, rangeEnd) && CutsAt(b, rangeEnd - q.range, start)
      modifies ringBuf`s
      ensures Tracks(tail, Naive(q, CallOf, hist + b, rangeEnd + q.step, q.lastStep),
                     ConfusesAfter(q, ringBuf.samples, b))
    {
      hide Naive, InWindow, StepOf, Aligned, Confuses, Window;
      BatchAfter(ringBuf.samples, b);
      var nextStep := rangeEnd + q.step;
      NaiveCong(q, CallOf, ringBuf.samples + b, hist + b, nextStep, q.lastStep);
      ConfusesFromStart(q, ringBuf.samples, b, start);
      if nextStep <= q.lastStep {
        tail := PopulateByLast(q, b, nextStep, start);
      } else {
        NaiveEmpty(q, CallOf, hist + b, nextStep, q.lastStep);
        ConfusesNothing(q, ringBuf.samples, start, nextStep, q.lastStep);
        tail := [];
      }
    }

    /** One batch of a series, after the samples `hist` of earlier batches. */
    method Aggregate(q: Query, b: Batch, firstStep: int, index: seq<int>, sameWindow: bool, lastRec: bool,
                     ghost hist: seq<Sample>, ghost same: bool)
      returns (out: seq<Point<Call>>, tail: seq<Point<Call>>)
      requires b != [] && ValidSamples(q, hist + b) && Ready(q, hist, same) && (Meets(q, hist, b) ==> same)
      requires firstStep == FirstStep(q, b) && |index| % 2 == 0 && IsIndex(q, b, index, |index| / 2)
      requires lastRec ==> !sameWindow
      modifies this, ringBuf
      ensures !lastRec ==> Ready(q, hist + b, sameWindow)
      ensures out == Unless(SkipsPadding(q, hist, b, sameWindow), GapPoints(q, CallOf, hist, b))
                     + MainPoints(q, CallOf, hist, b, sameWindow)
      ensures !lastRec ==> tail == []
      ensures lastRec ==> Tracks(tail, Naive(q, CallOf, hist + b, LastStep(q, b) + q.step, q.lastStep),
                                 ConfusesAfter(q, old(ringBuf.samples), b))
    {
      hide Naive, InWindow, StepOf, Aligned, Confuses, From;
      ghost var kept := ringBuf.samples;
      KeptIsEnough(q, kept, hist, b, same);
      StepsMeet(q, hist, b);
      BatchAfter(kept, b);
      var start, rangeEnd;
      out, start, rangeEnd := MainWindows(q, b, firstStep, index, |index| / 2, sameWindow);
      SameGap(q, kept, hist, b, same, sameWindow, prevStep);
      KeptResults(q, CallOf, kept, hist, b, DoneStep(q, b, sameWindow));
      prevStep := rangeEnd;
      tail := [];
      if lastRec {
        tail := AfterLast(q, b, prevStep, start, hist);
        ringBuf.Reset();
        prevStep := 0;
      } else {
        KeepsCarrying(q, kept, hist, b, same, sameWindow);
        ringBuf.UpdateValue(q, b, sameWindow, prevStep, start);
      }
    }
  }

  lemma PointCounted(q: Query, xs: seq<Sample>, s: int)
    ensures Counted(PointAt(q, CallOf, xs, s))
  {
  }

  lemma PieceCounted(q: Query, bs: seq<Batch>, k: nat, same: bool)
    requires ValidSeries(q, bs) && k < |bs|
    ensures Counted(Piece(q, bs, k, same))
  {
    hide Naive;
    var hist := Flat(bs[..k]);
    if hist != [] {
      NaiveCounted(q, hist, LastStep(q, hist) + q.step, FirstStep(q, bs[k]) - q.step);
    }
    NaiveCounted(q, hist + bs[k], FirstStep(q, bs[k]), DoneStep(q, bs[k], same));
  }

  /** The list got a point for the same step, but with fewer samples than due. */
  ghost predicate Shortened(out: seq<Point<Call>>, out0: seq<Point<Call>>, due: seq<Point<Call>>) {
    && |out| == |out0| + 1 && |due| == 1 && out[..|out0|] == out0
    && out[|out0|].ts == due[0].ts && |out[|out0|].value.samples| < |due[0].value.samples| && Counted(out[|out0|..])
  }

  /** The buffered samples that are before time `x`. */
  ghost function Older(kept: seq<Sample>, x: int): int {
    |kept| - |From(kept, x)|
  }

  /** At step `te` the padding after the last batch takes a position in the buffer
      for a time and forgets the buffered samples of the window. */
  ghost predicate ConfusesIndex(q: Query, kept: seq<Sample>, start: nat, te: int) {
    start == 0 && Reaches(q, kept, te) && Older(kept, te - q.step - q.range) >= te - q.range
  }

  /** Some padded step from `from` up to `till` confuses the two. */
  ghost predicate Confuses(q: Query, kept: seq<Sample>, start: nat, from: int, till: int)
    decreases till - from
  {
    from <= till && (ConfusesIndex(q, kept, start, from) || Confuses(q, kept, start, from + q.step, till))
  }

  lemma ConfusesNothing(q: Query, kept: seq<Sample>, start: nat, from: int, till: int)
    requires till < from
    ensures !Confuses(q, kept, start, from, till)
  {
  }

  lemma {:induction false} ConfusesSplit(q: Query, kept: seq<Sample>, start: nat, a: int, b: int, c: int)
    requires a <= b <= c + q.step && Aligned(b - a, q.step)
    ensures Confuses(q, kept, start, a, c)
       <==> Confuses(q, kept, start, a, b - q.step) || Confuses(q, kept, start, b, c)
    decreases b - a
  {
    if a < b {
      assert b - (a + q.step) == b - a - q.step;
      ConfusesSplit(q, kept, start, a + q.step, b, c);
    }
  }

  lemma ConfusesSnoc(q: Query, kept: seq<Sample>, start: nat, a: int, b: int)
    requires a <= b && Aligned(b - a, q.step)
    ensures Confuses(q, kept, start, a, b)
       <==> Confuses(q, kept, start, a, b - q.step) || ConfusesIndex(q, kept, start, b)
  {
    ConfusesSplit(q, kept, start, a, b, b);
  }

  lemma ConfusesTop(q: Query, kept: seq<Sample>, start: nat, a: int, b: int, till: int)
    requires a <= b && Aligned(b - a, q.step) && till < b && (b == a || b - q.step <= till)
    ensures Confuses(q, kept, start, a, till) <==> Confuses(q, kept, start, a, b - q.step)
  {
    if b - q.step <= till {
      ConfusesSplit(q, kept, start, a, b, till);
    }
  }

  lemma {:induction false} ConfusesOnlyAtStart(q: Query, kept: seq<Sample>, start: nat, from: int, till: int)
    requires start > 0
    ensures !Confuses(q, kept, start, from, till)
    decreases till - from
  {
    if from <= till {
      ConfusesOnlyAtStart(q, kept, start, from + q.step, till);
    }
  }

  lemma ConfusesFromStart(q: Query, kept: seq<Sample>, b: Batch, start: nat)
    requires b != [] && CutsAt(b, LastStep(q, b) - q.range, start)
    ensures ConfusesAfter(q, kept, b) <==> Confuses(q, kept, start, LastStep(q, b) + q.step, q.lastStep)
  {
    if start > 0 {
      assert b[0].time < LastStep(q, b) - q.range;
      ConfusesOnlyAtStart(q, kept, start, LastStep(q, b) + q.step, q.lastStep);
    }
  }

  /** The branch taken at a step, in terms of the state before the padding. */
  lemma ConfusesAt(q: Query, kept: seq<Sample>, start: nat, from: int, te: int, s: nat)
    requires Sorted(kept)
    requires Reaches(q, kept, te) ==> start == 0
    requires Reaches(q, kept, te - q.step) && !Confuses(q, kept, start, from, te - q.step) ==>
               CutsAt(kept, te - q.step - q.range, s)
    ensures !Confuses(q, kept, start, from, te - q.step)
        ==> (ConfusesIndex(q, kept, start, te) <==> Reaches(q, kept, te) && s >= te - q.range)
  {
    hide Confuses;
    if Reaches(q, kept, te) && !Confuses(q, kept, start, from, te - q.step) {
      FromCut(kept, te - q.step - q.range, s);
    }
  }

  /** A list with the right steps that differs from the expected one exactly when `wrong`. */
  ghost predicate Tracks(out: seq<Point<Call>>, expected: seq<Point<Call>>, wrong: bool) {
    && |out| == |expected| && (forall i :: 0 <= i < |out| ==> out[i].ts == expected[i].ts)
    && (out == expected <==> !wrong) && Counted(out)
  }

  lemma TracksSnoc(out0: seq<Point<Call>>, expected0: seq<Point<Call>>, wrong0: bool, out: seq<Point<Call>>,
                   due: seq<Point<Call>>, hit: bool)
    requires Tracks(out0, expected0, wrong0)
    requires hit ==> Shortened(out, out0, due)
    requires !hit ==> out == out0 + due && Counted(due)
    ensures Tracks(out, expected0 + due, wrong0 || hit)
  {
    if hit {
      assert out[..|out0|] == out0 && out[|out0|..][0] == out[|out0|];
      assert (expected0 + due)[|out0|] == due[0];
    } else if wrong0 {
      assert (out0 + due)[..|out0|] == out0;
      assert (expected0 + due)[..|out0|] == expected0;
    }
  }

  /** The padding before a batch is left out: its only step goes on in the next
      batch, or nothing is in the window of its first step. */
  ghost predicate SkipsPadding(q: Query, kept: seq<Sample>, b: Batch, sameWindow: bool)
    requires b != []
  {
    || (FirstStep(q, b) == LastStep(q, b) && sameWindow)
    || (b[0].time > FirstStep(q, b) && !Reaches(q, kept, FirstStep(q, b)))
  }

  lemma SameGap(q: Query, kept: seq<Sample>, hist: seq<Sample>, b: Batch, same: bool, sameWindow: bool, prevStep: int)
    requires b != [] && Enough(q, kept, hist, b) && Carries(q, kept, hist, same)
    requires hist != [] ==> prevStep == LastStep(q, hist)
    ensures Unless(SkipsPadding(q, kept, b, sameWindow), Padding(q, CallOf, kept, prevStep, FirstStep(q, b)))
         == Unless(SkipsPadding(q, hist, b, sameWindow), GapPoints(q, CallOf, hist, b))
  {
    hide Naive, InWindow, StepOf, Aligned;
    KeptResults(q, CallOf, kept, hist, b, 0);
    if hist == [] {
      NoPadding(q, CallOf, prevStep, FirstStep(q, b));
    }
  }

  /** The padding after the last batch confuses a position with a time. */
  ghost predicate ConfusesAfter(q: Query, kept: seq<Sample>, b: Batch)
    requires b != []
  {
    b[0].time >= LastStep(q, b) - q.range && Confuses(q, kept, 0, LastStep(q, b) + q.step, q.lastStep)
  }

  /** The loss pattern of this reducer. */
  ghost function GapLoss(q: Query, bs: seq<Batch>): nat -> bool
    requires ValidSeries(q, bs)
  {
    (k: nat) => k < |bs| && SkipsPadding(q, Flat(bs[..k]), bs[k], Continues(q, bs, k))
  }

  /** The samples kept after the samples `hist`. */
  ghost function KeptAfter(q: Query, hist: seq<Sample>, same: bool): seq<Sample> {
    if hist == [] then [] else From(hist, KeepFrom(q, LastStep(q, hist), same))
  }

  /** The samples kept before the last batch. */
  ghost function KeptForLast(q: Query, bs: seq<Batch>): seq<Sample>
    requires ValidSeries(q, bs) && bs != []
  {
    KeptAfter(q, Flat(bs[..|bs| - 1]), |bs| > 1 && Continues(q, bs, |bs| - 2))
  }

  /** The series for which the reducer gives the reference result. */
  ghost predicate Clean(q: Query, bs: seq<Batch>)
    requires ValidSeries(q, bs) && bs != []
  {
    && (forall k :: 0 < k < |bs| ==> !DropsGap(q, bs, k))
    && !ConfusesAfter(q, KeptForLast(q, bs), bs[|bs| - 1])
  }

  lemma LossIsDrop(q: Query, bs: seq<Batch>, k: nat)
    requires ValidSeries(q, bs) && k < |bs|
    ensures LostAt(q, CallOf, bs, k, GapLoss(q, bs), Never) == 0 <==> k == 0 || !DropsGap(q, bs, k)
  {
    hide Naive, InWindow, StepOf, Aligned, GapPoints, Flat, ValidSamples, MainPoints;
    PrefixValid(q, bs, k);
    NothingFlat(bs);
    var hist, b := Flat(bs[..k]), bs[k];
    StepsMeet(q, hist, b);
    GapIsDue(q, CallOf, 1, hist, b);
    if k > 0 {
      FlatStep(bs, k - 1);
      assert hist[|hist| - 1] == bs[k - 1][|bs[k - 1]| - 1];
    }
  }

  /** What batch `k` gives if the look at the next record says `same`. */
  ghost function Piece(q: Query, bs: seq<Batch>, k: nat, same: bool): seq<Point<Call>>
    requires ValidSeries(q, bs) && k < |bs|
  {
    var hist := Flat(bs[..k]);
    Unless(SkipsPadding(q, hist, bs[k], same), GapPoints(q, CallOf, hist, bs[k]))
    + MainPoints(q, CallOf, hist, bs[k], same)
  }

  /** One turn of the cursor loop: record `k`, with a look at the next one. */
  method ReduceBatch(r: SliceReducer, q: Query, records: seq<Batch>, k: nat)
    returns (main: seq<Point<Call>>, tail: seq<Point<Call>>)
    requires ValidRecords(q, records) && k < |records|
    requires r.Ready(q, Flat(Filtered(records)[..k]), k > 0 && SeenOn(q, records, k - 1))
    modifies r, r.ringBuf
    ensures k + 1 < |records| ==> r.Ready(q, Flat(Filtered(records)[..k + 1]), SeenOn(q, records, k)) && tail == []
    ensures main == Piece(q, Filtered(records), k, SeenOn(q, records, k))
    ensures var bs := Filtered(records);
            k + 1 == |bs| ==>
              Tracks(tail, Naive(q, CallOf, Flat(bs), LastStep(q, bs[k]) + q.step, q.lastStep),
                     ConfusesAfter(q, KeptAfter(q, Flat(bs[..k]), k > 0 && SeenOn(q, records, k - 1)), bs[k]))
  {
    hide Naive, InWindow, StepOf, Aligned, Confuses, GapPoints, MainPoints, SkipsPadding, From, NotStale, Sorted,
      SeenOn;
    ghost var bs := Filtered(records);
    ghost var hist := Flat(bs[..k]);
    PrefixValid(q, bs, k);
    BatchSamples(q, hist, bs[k]);
    MeetsIsSeen(q, records, k);
    var b, same, firstStep, index, n := PrepareRecord(q, records, k);
    main, tail := r.Aggregate(q, b, firstStep, index, same, k + 1 == |records|, hist, k > 0
                           && SeenOn(q, records, k - 1));
    assert k + 1 == |bs| ==> bs[..k + 1] == bs;
  }

  /** The final padding is right except when it confuses a position with a time. */
  ghost predicate RightTail(q: Query, bs: seq<Batch>, tail: seq<Point<Call>>)
    requires ValidSeries(q, bs) && bs != []
  {
    Tracks(tail, Naive(q, CallOf, Flat(bs), LastStep(q, bs[|bs| - 1]) + q.step, q.lastStep),
           ConfusesAfter(q, KeptForLast(q, bs), bs[|bs| - 1]))
  }

  lemma CleanIsExact(q: Query, bs: seq<Batch>, tail: seq<Point<Call>>)
    requires ValidSeries(q, bs) && bs != [] && RightTail(q, bs, tail)
    ensures Emitted(q, CallOf, bs, |bs|, GapLoss(q, bs), Never) + tail == Expected(q, CallOf, bs) <==> Clean(q, bs)
  {
    hide Naive, InWindow, StepOf, Aligned, Confuses, DropsGap, LostAt, GapLoss, Expected, Emitted, ConfusesAfter;
    WholeRun(q, CallOf, bs, GapLoss(q, bs), Never, tail);
    forall k: nat | k < |bs|
      ensures LostAt(q, CallOf, bs, k, GapLoss(q, bs), Never) == 0 <==> k == 0 || !DropsGap(q, bs, k)
    {
      LossIsDrop(q, bs, k);
    }
  }

  /** The output of the first `k` batches: the pieces of the batches as long as the look
      at the next record was right, and without the due step `lost` otherwise. */
  ghost predicate SoFar(q: Query, records: seq<Batch>, k: nat, out: seq<Point<Call>>, lost: int)
    requires ValidRecords(q, records) && k <= |records|
  {
    var bs := Filtered(records);
    if RightBefore(q, records, k) then out == Emitted(q, CallOf, bs, k, GapLoss(q, bs), Never)
    else k > 0 && Amiss(q, CallOf, bs, k, lost, out)
  }

  lemma StartsWithNothing(q: Query, records: seq<Batch>, lost: int)
    requires ValidRecords(q, records)
    ensures SoFar(q, records, 0, [], lost) && Flat(Filtered(records)[..0]) == []
  {
    EmittedNone(q, CallOf, Filtered(records), GapLoss(q, Filtered(records)), Never);
    NothingFlat(Filtered(records));
  }

  lemma RightPiece(q: Query, bs: seq<Batch>, k: nat)
    requires ValidSeries(q, bs) && k < |bs|
    ensures Emitted(q, CallOf, bs, k, GapLoss(q, bs), Never) + Piece(q, bs, k, Continues(q, bs, k))
         == Emitted(q, CallOf, bs, k + 1, GapLoss(q, bs), Never)
  {
    hide StepOf, GapPoints, MainPoints, SkipsPadding, Emitted, Flat, ValidSamples;
    EmittedStep(q, CallOf, bs, k, GapLoss(q, bs), Never);
  }

  lemma MisledPiece(q: Query, records: seq<Batch>, k: nat, out: seq<Point<Call>>)
    requires ValidRecords(q, records) && k < |records| && Misled(q, records, k)
    requires out == Emitted(q, CallOf, Filtered(records), k, GapLoss(q, Filtered(records)), Never)
    ensures Amiss(q, CallOf, Filtered(records), k + 1, LastStep(q, Filtered(records)[k]),
                  out + Piece(q, Filtered(records), k, true))
  {
    hide StepOf, GapPoints, MainPoints, SkipsPadding, Emitted, Flat, ValidSamples, NotStale, Sorted, Window, Amiss;
    var bs: seq<Batch> := Filtered(records);
    PrefixValid(q, bs, k);
    LookErrs(q, records, k);
    EmittedBefore(q, CallOf, bs, k, k, GapLoss(q, bs), Never);
    PiecesBefore(q, CallOf, Flat(bs[..k]), bs[k], true, LastStep(q, bs[k]));
    StepIsOver(q, bs, k);
    LastStepDue(q, bs, k);
    MisledLoses(q, CallOf, records, k, out, Piece(q, bs, k, true));
  }

  lemma LaterPiece(q: Query, bs: seq<Batch>, k: nat, same: bool, out: seq<Point<Call>>, lost: int)
    requires ValidSeries(q, bs) && 0 < k < |bs| && Amiss(q, CallOf, bs, k, lost, out)
    ensures Amiss(q, CallOf, bs, k + 1, lost, out + Piece(q, bs, k, same))
  {
    hide StepOf, GapPoints, MainPoints, SkipsPadding, Flat, ValidSamples, Window, Amiss;
    AmissAfter(q, CallOf, bs, k, lost, out);
    PiecesAfter(q, CallOf, Flat(bs[..k]), bs[k], same, lost);
    AmissStays(q, CallOf, bs, k, lost, out, Piece(q, bs, k, same));
  }

  lemma GoesOn(q: Query, records: seq<Batch>, k: nat, out: seq<Point<Call>>, lost: int)
    requires ValidRecords(q, records) && k < |records| && SoFar(q, records, k, out, lost)
    ensures SoFar(q, records, k + 1, out + Piece(q, Filtered(records), k, SeenOn(q, records, k)),
                  if RightBefore(q, records, k) then LastStep(q, Filtered(records)[k]) else lost)
  {
    hide StepOf, Emitted, Flat, ValidSamples, NotStale, Sorted, Amiss, SeenOn, Piece;
    LookErrs(q, records, k);
    if !RightBefore(q, records, k) {
      LaterPiece(q, Filtered(records), k, SeenOn(q, records, k), out, lost);
    } else if Misled(q, records, k) {
      MisledPiece(q, records, k, out);
    } else {
      RightPiece(q, Filtered(records), k);
    }
  }

  lemma EndsExactly(q: Query, records: seq<Batch>, out: seq<Point<Call>>, lost: int, tail: seq<Point<Call>>)
    requires ValidRecords(q, records) && records != [] && SoFar(q, records, |records|, out, lost)
    requires var bs, k := Filtered(records), |records| - 1;
             Tracks(tail, Naive(q, CallOf, Flat(bs), LastStep(q, bs[k]) + q.step, q.lastStep),
                    ConfusesAfter(q, KeptAfter(q, Flat(bs[..k]), k > 0 && SeenOn(q, records, k - 1)), bs[k]))
    ensures out + tail == Expected(q, CallOf, Filtered(records))
       <==> LooksThrough(q, records) && Clean(q, Filtered(records))
  {
    hide StepOf, Naive, Emitted, Expected, Flat, ValidSamples, NotStale, Sorted, Window, LooksThrough, Clean, KeptAfter,
      ConfusesAfter;
    var bs: seq<Batch> := Filtered(records);
    var n := |bs|;
    RightLook(q, records);
    if RightBefore(q, records, n) {
      if n > 1 {
        LookErrs(q, records, n - 2);
        assert !Misled(q, records, n - 2);
      }
      CleanIsExact(q, bs, tail);
    } else {
      NaiveSpan(q, CallOf, Flat(bs), LastStep(q, bs[n - 1]) + q.step, q.lastStep, lost);
      GivenStays(out, tail, lost);
      AmissIsWrong(q, CallOf, bs, lost, out + tail);
    }
  }

  /** Every batching of a series gives the reference result for its samples that are no
      staleness markers, exactly if the look at the next record is never misled by a
      marker, no due gap is dropped and the final padding does not take a position for a
      time. */
  method Evaluate(q: Query, records: seq<Batch>) returns (out: seq<Point<Call>>)
    requires ValidRecords(q, records)
    ensures records == [] ==> out == []
    ensures records != [] ==>
      (out == Expected(q, CallOf, Filtered(records)) <==> LooksThrough(q, records) && Clean(q, Filtered(records)))
    ensures Counted(out)
    ensures records != [] ==>
      (Answers(q, Fresh(records), IsCall, out) <==> LooksThrough(q, records) && Clean(q, Filtered(records)))
  {
    hide StepOf, Piece, SoFar, Expected, Clean, KeptAfter, ConfusesAfter, Naive, NotStale, Sorted,
      LooksThrough, Flat, ValidSamples, SeenOn, SliceReducer.Ready, Answers, Computes;
    ghost var bs := Filtered(records);
    out := [];
    var tail := [];
    ghost var lost := 0;
    var r := new SliceReducer();
    StartsWithNothing(q, records, lost);
    for k := 0 to |records|
      invariant fresh(r) && fresh(r.ringBuf)
      invariant k < |bs| ==> r.Ready(q, Flat(bs[..k]), k > 0 && SeenOn(q, records, k - 1))
      invariant SoFar(q, records, k, out, lost)
      invariant k == 0 ==> out == []
      invariant Counted(out)
      invariant 0 < k == |bs| ==>
        Tracks(tail, Naive(q, CallOf, Flat(bs), LastStep(q, bs[k - 1]) + q.step, q.lastStep),
               ConfusesAfter(q, KeptAfter(q, Flat(bs[..k - 1]), k > 1 && SeenOn(q, records, k - 2)), bs[k - 1]))
    {
      var main;
      main, tail := ReduceBatch(r, q, records, k);
      GoesOn(q, records, k, out, lost);
      lost := if RightBefore(q, records, k) then LastStep(q, bs[k]) else lost;
      PieceCounted(q, bs, k, SeenOn(q, records, k));
      out := out + main;
    }
    if records != [] {
      EndsExactly(q, records, out, lost, tail);
      out := out + tail;
      CallsMean();
      RecordsAnswer(q, CallOf, IsCall, records, out);
    }
  }
}

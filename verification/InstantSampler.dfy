/**
  Sampling for instant selectors: at every step the latest sample within the
  look-back delta, unless it is a staleness marker.  Between batches only the
  last row is remembered.
 */
module InstantSampler {
  import opened Multiples
  import opened Options
  import opened PromSteps
  import opened PromWindows
  import opened PromStreaming
  import opened VectorCursor
  import opened PromAnswers

  /** The reference: the latest sample of the window, if it is not stale. */
  function Latest(w: seq<Sample>): Option<real> {
    if w == [] || w[|w| - 1].stale then None else Some(w[|w| - 1].value)
  }

  /** What the value of a step is: that of a sample of the look-back which no other one
      follows, and which is no staleness marker. */
  ghost predicate IsLatest(w: seq<Sample>, v: real) {
    exists x :: x in w && !x.stale && x.value == v && forall y :: y in w ==> y.time <= x.time
  }

  lemma LatestMeans(w: seq<Sample>, v: real)
    requires Sorted(w)
    ensures Latest(w) == Some(v) <==> IsLatest(w, v)
  {
    if w != [] {
      var last := w[|w| - 1];
      assert last in w;
      forall y | y in w ensures y.time <= last.time && (y.time == last.time ==> y == last) {
        var i :| 0 <= i < |w| && w[i] == y;
      }
      if IsLatest(w, v) {
        var x :| x in w && !x.stale && x.value == v && forall y :: y in w ==> y.time <= x.time;
        assert x == last;
      }
    }
  }

  lemma SamplesMean()
    ensures Computes(Latest, IsLatest)
  {
    forall w, v | Sorted(w) ensures Latest(w) == Some(v) <==> IsLatest(w, v) {
      LatestMeans(w, v);
    }
  }

  /** The points of one remembered sample over the steps `from` up to `till`. */
  ghost function Repeats(q: Query, x: Sample, from: int, till: int): seq<Point<real>> {
    Naive(q, Latest, [x], from, till)
  }

  class FloatSampler {
    // the last row read, and the last step of its batch
    var prevNil: bool
    var prevStep: int
    var prev: Sample

    constructor ()
      ensures forall q: Query :: Ready(q, [])
    {
      prevNil, prevStep, prev := true, 0, Sample(0, 0.0, false);
    }

    ghost predicate Ready(q: Query, hist: seq<Sample>)
      reads this
    {
      if hist == [] then prevNil else !prevNil && prevStep == LastStep(q, hist) && prev == hist[|hist| - 1]
    }

    /** Repeats the remembered sample over steps after it. */
    method PopulateByPrevious(q: Query, nextStep: int, lastStep: int) returns (out: seq<Point<real>>)
      requires prev.time <= nextStep
      ensures out == Repeats(q, prev, nextStep, lastStep)
    {
      hide InWindow, Naive;
      out := [];
      if prev.stale {
        RepeatsStale(q, prev, nextStep, lastStep);
        return;
      }
      var t := nextStep;
      NaiveEmpty(q, Latest, [prev], nextStep, t - q.step);
      while t <= lastStep
        invariant nextStep <= t && Aligned(t - nextStep, q.step)
        invariant t == nextStep || t - q.step <= lastStep
        invariant out == Naive(q, Latest, [prev], nextStep, t - q.step)
        decreases lastStep + q.step - t
      {
        SingleWindow(q, prev, t);
        if prev.time < t - q.range {
          RepeatsEnd(q, prev, nextStep, t, lastStep);
          return;
        }
        out := out + [Point(t, prev.value)];
        NaiveSnoc(q, Latest, [prev], nextStep, t);
        t := t + q.step;
        assert t - nextStep - q.step == t - q.step - nextStep;
      }
      NaiveTop(q, Latest, [prev], nextStep, t, lastStep);
    }

    /** The point of one step of a batch. */
    method SampleStep(q: Query, b: Batch, ts: int, lo: int, hi: int, ghost hist: seq<Sample>)
      returns (out: seq<Point<real>>)
      requires b != [] && Sorted(hist + b) && Ready(q, hist)
      requires IsInterval(q, b, ts, lo, hi)
      ensures out == Unless(b[0].time > ts && hist != [] && hist[|hist| - 1].time > ts,
                            PointAt(q, Latest, hist + b, ts))
    {
      hide InWindow, StepOf, Aligned;
      out := [];
      LatestOfTwo(q, hist, b, ts, lo, hi);
      BatchAfter(hist, b);
      assert hist != [] ==> hist[|hist| - 1].time < b[0].time;
      assert lo < hi ==> b[0].time < ts + 1;
      if lo < hi {
        var x := b[hi - 1];
        if !x.stale {
          out := [Point(ts, x.value)];
        }
      } else {
        if !(prevNil || prev.time < ts - q.range || prev.time > ts || prev.stale) {
          out := [Point(ts, prev.value)];
        }
      }
    }

    /** The steps of the batch, with the padding before the first of them. */
    method SampleSteps(q: Query, b: Batch, firstStep: int, index: seq<int>, n: nat, sameWindow: bool,
                       ghost hist: seq<Sample>)
      returns (out: seq<Point<real>>)
      requires b != [] && ValidSamples(q, hist + b) && Ready(q, hist)
      requires firstStep == FirstStep(q, b) && IsIndex(q, b, index, n)
      ensures out == Unless(FirstStep(q, b) == LastStep(q, b) && sameWindow, GapPoints(q, Latest, hist, b))
                     + Unless(LateAfterLate(q, hist), MainPoints(q, Latest, hist, b, sameWindow))
    {
      hide Naive, InWindow, StepOf, Aligned, Sorted, PointAt, GapPoints;
      StepsMeet(q, hist, b);
      ghost var xs := hist + b;
      ghost var gap := Unless(n == 1 && sameWindow, GapPoints(q, Latest, hist, b));
      out := [];
      if LateAfterLate(q, hist) {
        LateHasOneStep(q, hist, b);
      }
      ghost var done := firstStep - q.step;
      for i := 0 to n
        invariant i == 0 ==> out == []
        invariant i > 0 ==> done == Nth(q, firstStep, i - 1)
        invariant i > 0 && !LateAfterLate(q, hist)
              ==> out == gap + Naive(q, Latest, xs, firstStep, if i == n && sameWindow then done - q.step else done)
        invariant i > 0 && LateAfterLate(q, hist) ==> out == gap
      {
        ghost var before := out;
        done := Nth(q, firstStep, i);
        if !(sameWindow && i == n - 1) {
          if i == 0 {
            out := Padding(q, b, firstStep, hist);
          }
          var ts := StepAt(q, firstStep, i);
          assert IntervalAt(q, b, index, i);
          NthMonotone(q, firstStep, i, n - 1);
          LateStep(q, hist, b, ts);
          var point := SampleStep(q, b, ts, index[2 * i], index[2 * i + 1], hist);
          out := out + point;
        }
        if !LateAfterLate(q, hist) {
          MainSnoc(q, Latest, xs, firstStep, i, done, gap, before, out, sameWindow && i == n - 1);
        }
      }
    }

    /** One batch of a series, after the samples `hist` of earlier batches. */
    method Aggregate(q: Query, b: Batch, firstStep: int, index: seq<int>, sameWindow: bool, lastRec: bool,
                     ghost hist: seq<Sample>)
      returns (out: seq<Point<real>>)
      requires b != [] && ValidSamples(q, hist + b) && Ready(q, hist)
      requires firstStep == FirstStep(q, b) && |index| % 2 == 0 && IsIndex(q, b, index, |index| / 2)
      requires lastRec ==> !sameWindow
      modifies this
      ensures !lastRec ==> Ready(q, hist + b)
      ensures out == Unless(FirstStep(q, b) == LastStep(q, b) && sameWindow, GapPoints(q, Latest, hist, b))
                     + Unless(LateAfterLate(q, hist), MainPoints(q, Latest, hist, b, sameWindow))
                     + Unless(!lastRec, Naive(q, Latest, hist + b, LastStep(q, b) + q.step, q.lastStep))
    {
      hide Naive, InWindow, StepOf, Aligned, Sorted, GapPoints, MainPoints;
      out := SampleSteps(q, b, firstStep, index, |index| / 2, sameWindow, hist);
      var ts := StepAt(q, firstStep, |index| / 2 - 1);
      // the last row of each record becomes the remembered sample
      prevNil, prevStep, prev := false, ts, b[|b| - 1];
      if lastRec {
        var nextStep := ts + q.step;
        if nextStep <= q.lastStep {
          TailRepeats(q, hist, b);
          var tail := PopulateByPrevious(q, nextStep, q.lastStep);
          out := out + tail;
        } else {
          NaiveEmpty(q, Latest, hist + b, nextStep, q.lastStep);
        }
        prevNil := true;
      }
    }

    /** The padding between the previous batch and this one. */
    method Padding(q: Query, b: Batch, firstStep: int, ghost hist: seq<Sample>) returns (out: seq<Point<real>>)
      requires b != [] && ValidSamples(q, hist + b) && Ready(q, hist) && firstStep == FirstStep(q, b)
      ensures out == GapPoints(q, Latest, hist, b)
    {
      hide Naive, InWindow, StepOf, Aligned, Sorted;
      out := [];
      if !prevNil {
        var nextStep, lastStep := prevStep + q.step, firstStep - q.step;
        if nextStep <= lastStep {
          GapRepeats(q, hist, b);
          out := PopulateByPrevious(q, nextStep, lastStep);
        } else {
          NaiveEmpty(q, Latest, hist, nextStep, lastStep);
        }
      }
    }
  }

  lemma SingleWindow(q: Query, x: Sample, t: int)
    requires x.time <= t
    ensures Window(q, [x], t) == if x.time < t - q.range then [] else [x]
  {
    if x.time < t - q.range {
      WindowNone([x], t - q.range, t);
    } else {
      WindowAll([x], t - q.range, t);
    }
  }

  lemma {:induction false} RepeatsStale(q: Query, x: Sample, from: int, till: int)
    requires x.stale && x.time <= from
    ensures Repeats(q, x, from, till) == []
    decreases till - from
  {
    hide InWindow;
    if from <= till {
      SingleWindow(q, x, from);
      RepeatsStale(q, x, from + q.step, till);
    }
  }

  lemma RepeatsEnd(q: Query, x: Sample, from: int, t: int, till: int)
    requires x.time < t - q.range && from <= t <= till && Aligned(t - from, q.step)
    ensures Repeats(q, x, from, till) == Naive(q, Latest, [x], from, t - q.step)
  {
    hide InWindow, Naive;
    NaiveSplit(q, Latest, [x], from, t, till);
    forall s | t <= s <= till ensures Window(q, [x], s) == [] {
      SingleWindow(q, x, s);
    }
    NaiveNone(q, Latest, [x], t, till);
  }

  /** The latest sample of a window is the last of the batch's share, or the last
      sample before the batch. */
  lemma LatestOfTwo(q: Query, hist: seq<Sample>, b: Batch, ts: int, lo: int, hi: int)
    requires b != [] && Sorted(hist + b) && IsInterval(q, b, ts, lo, hi)
    ensures lo < hi ==> Latest(Window(q, hist + b, ts)) == Latest([b[hi - 1]])
    ensures lo == hi && (hist == [] || hist[|hist| - 1].time < ts - q.range) ==> Window(q, hist + b, ts) == []
    ensures lo == hi && hist != [] && ts - q.range <= hist[|hist| - 1].time <= ts
        ==> Latest(Window(q, hist + b, ts)) == Latest([hist[|hist| - 1]])
  {
    hide InWindow;
    BatchAfter(hist, b);
    WindowConcat(hist, b, ts - q.range, ts);
    WindowSlice(b, ts - q.range, ts, lo, hi);
    if lo == hi && hist != [] && ts - q.range <= hist[|hist| - 1].time <= ts {
      WindowEnds(hist, ts - q.range, ts);
    } else if lo == hi && (hist == [] || hist[|hist| - 1].time < ts - q.range) {
      WindowNone(hist, ts - q.range, ts);
    }
  }

  /** If the last sample is in the window, it is the last one there. */
  lemma WindowEnds(xs: seq<Sample>, lo: int, hi: int)
    requires xs != [] && lo <= xs[|xs| - 1].time <= hi
    ensures InWindow(xs, lo, hi) != [] && InWindow(xs, lo, hi)[|InWindow(xs, lo, hi)| - 1] == xs[|xs| - 1]
  {
    var n := |xs| - 1;
    WindowConcat(xs[..n], [xs[n]], lo, hi);
    assert xs == xs[..n] + [xs[n]];
    WindowAll([xs[n]], lo, hi);
  }

  /** The batch and the sample before it are after the last step. */
  ghost predicate LateAfterLate(q: Query, hist: seq<Sample>) {
    hist != [] && hist[|hist| - 1].time > q.endSample
  }

  lemma LateHasOneStep(q: Query, hist: seq<Sample>, b: Batch)
    requires b != [] && ValidSamples(q, hist + b) && LateAfterLate(q, hist)
    ensures FirstStep(q, b) == LastStep(q, b) == q.endSample && b[0].time > q.endSample
    ensures GapPoints(q, Latest, hist, b) == []
  {
    hide Naive, StepOf;
    StepsMeet(q, hist, b);
    BatchAfter(hist, b);
    assert hist[|hist| - 1].time < b[0].time;
    NaiveEmpty(q, Latest, hist, LastStep(q, hist) + q.step, FirstStep(q, b) - q.step);
  }

  /** A step that neither the batch nor the sample before it reaches. */
  lemma LateStep(q: Query, hist: seq<Sample>, b: Batch, ts: int)
    requires b != [] && ValidSamples(q, hist + b) && FirstStep(q, b) <= ts <= q.endSample
    ensures b[0].time > ts && hist != [] && hist[|hist| - 1].time > ts <==> LateAfterLate(q, hist)
  {
    hide StepOf;
    StepsMeet(q, hist, b);
    BatchAfter(hist, b);
    if hist != [] {
      assert hist[|hist| - 1].time < b[0].time;
    }
  }

  /** Between two batches only the last sample of the history matters. */
  lemma GapRepeats(q: Query, hist: seq<Sample>, b: Batch)
    requires hist != [] && b != [] && ValidSamples(q, hist + b)
    requires LastStep(q, hist) + q.step <= FirstStep(q, b) - q.step
    ensures hist[|hist| - 1].time <= LastStep(q, hist)
    ensures GapPoints(q, Latest, hist, b)
         == Repeats(q, hist[|hist| - 1], LastStep(q, hist) + q.step, FirstStep(q, b) - q.step)
  {
    hide InWindow, StepOf, Naive;
    StepsMeet(q, hist, b);
    LatestRepeats(q, hist, LastStep(q, hist) + q.step, FirstStep(q, b) - q.step);
  }

  lemma LatestRepeats(q: Query, xs: seq<Sample>, from: int, till: int)
    requires xs != [] && Sorted(xs) && xs[|xs| - 1].time <= from
    ensures Naive(q, Latest, xs, from, till) == Repeats(q, xs[|xs| - 1], from, till)
  {
    hide InWindow, StepOf, Naive;
    var x := xs[|xs| - 1];
    forall s | from <= s <= till ensures Latest(Window(q, xs, s)) == Latest(Window(q, [x], s)) {
      SingleWindow(q, x, s);
      if x.time < s - q.range {
        WindowNone(xs, s - q.range, s);
      } else {
        WindowEnds(xs, s - q.range, s);
      }
    }
    NaiveCongFn(q, Latest, xs, [x], from, till);
  }

  /** After the last batch only its last sample matters. */
  lemma TailRepeats(q: Query, hist: seq<Sample>, b: Batch)
    requires b != [] && ValidSamples(q, hist + b) && LastStep(q, b) + q.step <= q.lastStep
    ensures b[|b| - 1].time <= LastStep(q, b)
    ensures Naive(q, Latest, hist + b, LastStep(q, b) + q.step, q.lastStep)
         == Repeats(q, b[|b| - 1], LastStep(q, b) + q.step, q.lastStep)
  {
    hide InWindow, StepOf, Naive;
    var xs := hist + b;
    assert xs[|xs| - 1] == b[|b| - 1];
    LatestRepeats(q, xs, LastStep(q, b) + q.step, q.lastStep);
  }

  ghost function GapLoss(q: Query, bs: seq<Batch>): nat -> bool
    requires ValidSeries(q, bs)
  {
    (k: nat) => k < |bs| && FirstStep(q, bs[k]) == LastStep(q, bs[k]) && Continues(q, bs, k)
  }

  ghost function MainLoss(q: Query, bs: seq<Batch>): nat -> bool
    requires ValidSeries(q, bs)
  {
    (k: nat) => k < |bs| && LateAfterLate(q, Flat(bs[..k]))
  }

  /** Before batch `k` the steps `P + step, ...` up to the batch are due and get lost,
      where `P` is the last step of the history. */
  ghost predicate DropsGap(q: Query, bs: seq<Batch>, k: nat)
    requires ValidSeries(q, bs) && 0 < k < |bs|
  {
    var P, F := LastStep(q, bs[k - 1]), FirstStep(q, bs[k]);
    var last := bs[k - 1][|bs[k - 1]| - 1];
    && P + q.step < F == LastStep(q, bs[k])
    && Continues(q, bs, k)
    && last.time >= P + q.step - q.range
    && !last.stale
  }

  /** The last step is due and gets lost: a batch that is not the last one ends
      after it. */
  ghost predicate DropsFinal(q: Query, bs: seq<Batch>)
    requires ValidSeries(q, bs)
  {
    && |bs| >= 2
    && bs[|bs| - 2][|bs[|bs| - 2]| - 1].time > q.endSample
    && Latest(Window(q, Flat(bs), q.endSample)).Some?
  }

  lemma GapIsSampled(q: Query, hist: seq<Sample>, b: Batch)
    requires b != [] && ValidSamples(q, hist + b)
    ensures GapPoints(q, Latest, hist, b) != []
       <==> && hist != [] && LastStep(q, hist) + q.step < FirstStep(q, b)
            && hist[|hist| - 1].time >= LastStep(q, hist) + q.step - q.range && !hist[|hist| - 1].stale
  {
    hide InWindow, StepOf;
    if hist != [] {
      StepsMeet(q, hist, b);
      var s := LastStep(q, hist) + q.step;
      if s < FirstStep(q, b) {
        var x := hist[|hist| - 1];
        GridGap(q, LastStep(q, hist), FirstStep(q, b));
        GridGap(q, s, FirstStep(q, b));
        GapRepeats(q, hist, b);
        if x.stale {
          RepeatsStale(q, x, s, FirstStep(q, b) - q.step);
        } else {
          SingleWindow(q, x, s);
          if x.time < s - q.range {
            RepeatsEnd(q, x, s, s, FirstStep(q, b) - q.step);
          }
        }
      }
    }
  }

  lemma LateMain(q: Query, hist: seq<Sample>, b: Batch, continues: bool)
    requires b != [] && ValidSamples(q, hist + b) && LateAfterLate(q, hist)
    ensures MainPoints(q, Latest, hist, b, continues) == if continues then []
            else PointAt(q, Latest, hist + b, q.endSample)
  {
    hide InWindow, StepOf, Aligned, PointAt;
    LateHasOneStep(q, hist, b);
    var e := q.endSample;
    assert Naive(q, Latest, hist + b, e, e)
        == PointAt(q, Latest, hist + b, e) + Naive(q, Latest, hist + b, e + q.step, e);
  }

  /** Batches after the last step all have that step only. */
  lemma LateGoesOn(q: Query, bs: seq<Batch>, k: nat)
    requires ValidSeries(q, bs) && k < |bs| && LateAfterLate(q, Flat(bs[..k]))
    ensures k + 1 < |bs| ==> Continues(q, bs, k)
    ensures MainPoints(q, Latest, Flat(bs[..k]), bs[k], Continues(q, bs, k))
         == if k + 1 < |bs| then [] else PointAt(q, Latest, Flat(bs), q.endSample)
  {
    hide InWindow, StepOf, Aligned, Naive, MainPoints, PointAt, GapPoints;
    PrefixValid(q, bs, k);
    var hist, b := Flat(bs[..k]), bs[k];
    LateMain(q, hist, b, Continues(q, bs, k));
    LateHasOneStep(q, hist, b);
    if k + 1 < |bs| {
      PrefixValid(q, bs, k + 1);
      var next := hist + b;
      BatchAfter(hist, b);
      assert next[|next| - 1] == b[|b| - 1];
      LateHasOneStep(q, next, bs[k + 1]);
    } else {
      assert bs[..k + 1] == bs;
    }
  }

  lemma LossIsDrop(q: Query, bs: seq<Batch>, k: nat)
    requires ValidSeries(q, bs) && k < |bs|
    ensures LostAt(q, Latest, bs, k, GapLoss(q, bs), MainLoss(q, bs)) == 0
       <==> (k == 0 || !DropsGap(q, bs, k)) && !(k + 1 == |bs| && DropsFinal(q, bs))
  {
    hide Naive, InWindow, StepOf, Aligned;
    PrefixValid(q, bs, k);
    var hist, b := Flat(bs[..k]), bs[k];
    GapIsSampled(q, hist, b);
    if k > 0 {
      FlatStep(bs, k - 1);
      assert hist[|hist| - 1] == bs[k - 1][|bs[k - 1]| - 1];
    }
    if MainLoss(q, bs)(k) {
      LateGoesOn(q, bs, k);
    }
  }

  lemma DropsAreExact(q: Query, bs: seq<Batch>)
    requires ValidSeries(q, bs) && bs != []
    ensures Emitted(q, Latest, bs, |bs|, GapLoss(q, bs), MainLoss(q, bs))
            + Naive(q, Latest, Flat(bs), LastStep(q, bs[|bs| - 1]) + q.step, q.lastStep) == Expected(q, Latest, bs)
       <==> Clean(q, bs)
  {
    hide Naive, StepOf, DropsGap, DropsFinal, LostAt, GapLoss, MainLoss, Expected, Emitted;
    WholeRun(q, Latest, bs, GapLoss(q, bs), MainLoss(q, bs),
             Naive(q, Latest, Flat(bs), LastStep(q, bs[|bs| - 1]) + q.step, q.lastStep));
    forall k: nat | k < |bs|
      ensures LostAt(q, Latest, bs, k, GapLoss(q, bs), MainLoss(q, bs)) == 0
         <==> (k == 0 || !DropsGap(q, bs, k)) && !(k + 1 == |bs| && DropsFinal(q, bs))
    {
      LossIsDrop(q, bs, k);
    }
    LossIsDrop(q, bs, |bs| - 1);
  }

  /** The series for which sampling gives the reference result. */
  ghost predicate Clean(q: Query, bs: seq<Batch>)
    requires ValidSeries(q, bs)
  {
    (forall k :: 0 < k < |bs| ==> !DropsGap(q, bs, k)) && !DropsFinal(q, bs)
  }

  /** One turn of the cursor loop: batch `k`, with a look at the next one. */
  method ReduceBatch(r: FloatSampler, q: Query, bs: seq<Batch>, k: nat) returns (out: seq<Point<real>>)
    requires ValidSeries(q, bs) && k < |bs| && r.Ready(q, Flat(bs[..k]))
    modifies r
    ensures k + 1 < |bs| ==> r.Ready(q, Flat(bs[..k + 1]))
    ensures out == Unless(GapLoss(q, bs)(k), GapPoints(q, Latest, Flat(bs[..k]), bs[k]))
                   + Unless(MainLoss(q, bs)(k), MainPoints(q, Latest, Flat(bs[..k]), bs[k], Continues(q, bs, k)))
                   + Unless(k + 1 < |bs|, Naive(q, Latest, Flat(bs), LastStep(q, bs[k]) + q.step, q.lastStep))
  {
    hide Naive, InWindow, StepOf, Aligned, GapPoints, MainPoints;
    ghost var hist := Flat(bs[..k]);
    PrefixValid(q, bs, k);
    BatchSamples(q, hist, bs[k]);
    var same := IsSameWindow(q, bs[k], if k + 1 < |bs| then Some(bs[k + 1]) else None);
    var firstStep, index, n := GetIntervalIndex(q, bs[k]);
    out := r.Aggregate(q, bs[k], firstStep, index, same, k + 1 == |bs|, hist);
    assert k + 1 == |bs| ==> bs[..k + 1] == bs;
  }

  /** Every batching of a series gives, at every step, the latest sample within the
      look-back delta, except exactly when a due gap or the due last step is dropped. */
  method Evaluate(q: Query, bs: seq<Batch>) returns (out: seq<Point<real>>)
    requires ValidSeries(q, bs)
    ensures bs == [] ==> out == []
    ensures bs != [] ==> (out == Expected(q, Latest, bs) <==> Clean(q, bs))
    ensures bs != [] ==> (Answers(q, Samples(bs), IsLatest, out) <==> Clean(q, bs))
  {
    hide StepOf, GapPoints, MainPoints, GapLoss, MainLoss, Emitted, Expected, Clean, Naive, ValidSamples, Flat,
      Answers, Computes, FloatSampler.Ready;
    out := [];
    ghost var tail := [];
    var r := new FloatSampler();
    EmittedNone(q, Latest, bs, GapLoss(q, bs), MainLoss(q, bs));
    NothingFlat(bs);
    for k := 0 to |bs|
      invariant fresh(r)
      invariant k < |bs| ==> r.Ready(q, Flat(bs[..k]))
      invariant out == Emitted(q, Latest, bs, k, GapLoss(q, bs), MainLoss(q, bs)) + tail
      invariant tail == if 0 < k == |bs| then Naive(q, Latest, Flat(bs), LastStep(q, bs[k - 1]) + q.step, q.lastStep)
                else []
    {
      var points := ReduceBatch(r, q, bs, k);
      out := out + points;
      EmittedStep(q, Latest, bs, k, GapLoss(q, bs), MainLoss(q, bs));
      tail := Unless(k + 1 < |bs|, Naive(q, Latest, Flat(bs), LastStep(q, bs[k]) + q.step, q.lastStep));
    }
    if bs != [] {
      DropsAreExact(q, bs);
      SamplesMean();
      BatchesAnswer(q, Latest, IsLatest, bs, out);
    }
  }
}

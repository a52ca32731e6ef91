/**
  What the reducers have in common that carry the value of a step which goes on in the
  next batch: between two batches there may be a previous point, and a batch after the
  last step of the query gives the point of that step or not.
 */
module CarriedPoints {
  import opened Multiples
  import opened Options
  import opened PromSteps
  import opened PromWindows
  import opened PromStreaming
  import opened VectorCursor
  import opened StaleMarkers

  /** What a reducer relies on at a batch: it starts in time and the previous point is that
      of its first step, it starts after the last step of the query, or, after a wrong look
      at the next record, the previous point is one of an earlier step, known or not. */
  datatype Course = Timely | Overdue | Vague | Garbled

  /** Whether there is a previous point after the batch. */
  ghost predicate HeldAfter(q: Query, hist: seq<Sample>, b: Batch, sameWindow: bool, held: bool)
    requires b != []
  {
    if b[0].time <= q.endSample then sameWindow && Window(q, hist + b, LastStep(q, b)) != []
    else held || (sameWindow && Reaches(q, hist, q.endSample))
  }

  /** Whether a batch after the last step gives a point for that step. */
  ghost predicate Emits(q: Query, hist: seq<Sample>, sameWindow: bool, held: bool) {
    !held && !sameWindow && Reaches(q, hist, q.endSample)
  }

  ghost predicate UpTo(xs: seq<Sample>, t: int) {
    forall k :: 0 <= k < |xs| ==> xs[k].time <= t
  }

  ghost predicate NoneUpTo(xs: seq<Sample>, t: int) {
    forall k :: 0 <= k < |xs| ==> t < xs[k].time
  }

  lemma NoneInWindow(q: Query, xs: seq<Sample>, t: int, s: int)
    requires s <= t
    ensures NoneUpTo(xs, t) ==> Window(q, xs, s) == []
  {
    if NoneUpTo(xs, t) {
      WindowNone(xs, s - q.range, s);
    }
  }

  /** At every step of a batch the buffer is behind, or nothing of the batch is in the window. */
  lemma BufferBehind(q: Query, kept: seq<Sample>, b: Batch, firstStep: int, i: nat, n: nat)
    requires b != [] && i < n && Nth(q, firstStep, n - 1) == LastStep(q, b)
    ensures firstStep <= Nth(q, firstStep, i)
    ensures UpTo(kept, firstStep) ==> UpTo(kept, Nth(q, firstStep, i))
    ensures NoneUpTo(b, LastStep(q, b)) ==> Window(q, b, Nth(q, firstStep, i)) == []
  {
    hide StepOf, InWindow;
    NthMonotone(q, firstStep, 0, i);
    NthMonotone(q, firstStep, i, n - 1);
    NoneInWindow(q, b, LastStep(q, b), Nth(q, firstStep, i));
  }

  lemma EnoughAt(q: Query, kept: seq<Sample>, hist: seq<Sample>, b: Batch, s: int)
    requires b != [] && Enough(q, kept, hist, b) && FirstStep(q, b) <= s
    ensures Window(q, kept + b, s) == Window(q, hist + b, s)
  {
    hide Window;
  }

  lemma Ascending(b: Batch)
    requires b != [] && Sorted(b)
    ensures forall t :: t < b[0].time ==> NoneUpTo(b, t)
  {
  }

  lemma BufferInWindow(q: Query, kept: seq<Sample>, s: int)
    requires Sorted(kept) && UpTo(kept, s)
    ensures Reaches(q, kept, s) <==> Window(q, kept, s) != []
  {
    if Reaches(q, kept, s) {
      WindowHas(kept, s - q.range, s, |kept| - 1);
    } else {
      WindowNone(kept, s - q.range, s);
    }
  }

  lemma WindowHasMore(q: Query, hist: seq<Sample>, b: Batch, s: int)
    ensures Window(q, b, s) != [] ==> Window(q, hist + b, s) != []
  {
    WindowConcat(hist, b, s - q.range, s);
  }

  lemma NotInBuffer(q: Query, kept: seq<Sample>, b: Batch, s: int)
    requires Sorted(kept) && !Reaches(q, kept, s)
    ensures Window(q, kept + b, s) == Window(q, b, s)
  {
    WindowNone(kept, s - q.range, s);
    WindowConcat(kept, b, s - q.range, s);
  }

  /** Once a window after the kept samples has too few samples, all later ones have. */
  lemma NothingLeft<V>(q: Query, f: WindowFn<V>, m: nat, kept: seq<Sample>, from: int, te: int, till: int)
    requires Sorted(kept) && from <= te <= till && Aligned(te - from, q.step)
    requires m > 0 && forall w :: f(w).Some? <==> |w| >= m
    requires |Window(q, kept, te)| < m && UpTo(kept, te)
    ensures Naive(q, f, kept, from, till) == Naive(q, f, kept, from, te - q.step)
  {
    hide InWindow, Naive;
    NaiveSplit(q, f, kept, from, te, till);
    SamplesLeft(q, kept, m, te);
    forall s | te <= s <= till ensures f(Window(q, kept, s)) == None {
      SamplesLeft(q, kept, m, s);
    }
    NaiveSilent(q, f, kept, te, till);
  }

  lemma FirstInWindow(q: Query, b: Batch)
    requires b != [] && FirstStep(q, b) - q.range <= b[0].time <= FirstStep(q, b)
    ensures Window(q, b, FirstStep(q, b)) != []
  {
    WindowHas(b, FirstStep(q, b) - q.range, FirstStep(q, b), 0);
  }

  lemma KeptUpTo(q: Query, kept: seq<Sample>, hist: seq<Sample>, b: Batch, same: bool)
    requires hist != [] && b != [] && ValidSamples(q, hist + b) && Carries(q, kept, hist, same)
          && (Meets(q, hist, b) ==> same)
    ensures UpTo(kept, hist[|hist| - 1].time)
  {
    hide StepOf, Aligned, From;
    var pre := KeptCut(q, kept, hist, b, same);
    BatchAfter(hist, b);
    assert forall k :: 0 <= k < |kept| ==> kept[k] == hist[|pre| + k];
  }

  /** What the reducer relies on when a batch starts at or before the last step. */
  lemma BatchFacts(q: Query, kept: seq<Sample>, hist: seq<Sample>, b: Batch, same: bool)
    requires b != [] && ValidSamples(q, hist + b) && Carries(q, kept, hist, same) && (Meets(q, hist, b) ==> same)
    requires b[0].time <= q.endSample
    ensures Enough(q, kept, hist, b)
    ensures Sorted(kept + b) && Sorted(kept) && Sorted(b)
    ensures FirstStep(q, b) - q.range <= b[0].time <= FirstStep(q, b) <= LastStep(q, b)
    ensures UpTo(kept, FirstStep(q, b))
    ensures hist != [] ==> UpTo(kept, LastStep(q, hist))
  {
    hide InWindow, StepOf, Aligned, From, Enough;
    KeptIsEnough(q, kept, hist, b, same);
    StepsMeet(q, hist, b);
    BatchAfter(kept, b);
    if hist != [] {
      BatchAfter(hist, b);
      assert hist[|hist| - 1].time < b[0].time;
      KeptUpTo(q, kept, hist, b, same);
    }
  }

  lemma LastInWindow(q: Query, hist: seq<Sample>, b: Batch)
    requires b != [] && ValidSamples(q, hist + b)
    ensures b[|b| - 1].time <= q.endSample ==> Window(q, hist + b, LastStep(q, b)) != []
    ensures b[|b| - 1].time <= LastStep(q, b) || LastStep(q, b) == q.endSample
    ensures LastStep(q, hist + b) == LastStep(q, b)
  {
    hide InWindow, StepOf, Aligned;
    StepsMeet(q, hist, b);
    var xs := hist + b;
    assert xs[|xs| - 1] == b[|b| - 1];
    if b[|b| - 1].time <= q.endSample {
      WindowHas(xs, LastStep(q, b) - q.range, LastStep(q, b), |xs| - 1);
    }
  }

  lemma SameGap<V>(q: Query, f: WindowFn<V>, kept: seq<Sample>, hist: seq<Sample>, b: Batch, same: bool,
                   sameWindow: bool, prevStep: int, prevNil: bool)
    requires b != [] && Enough(q, kept, hist, b) && Carries(q, kept, hist, same) && (Meets(q, hist, b) ==> same)
    requires hist != [] ==> prevStep == LastStep(q, hist)
    requires (prevNil <==> !Meets(q, hist, b)) && f([]) == None
    ensures Unless((FirstStep(q, b) == LastStep(q, b) && sameWindow)
                || !prevNil, Padding(q, f, kept, prevStep, FirstStep(q, b)))
         == Unless(FirstStep(q, b) == LastStep(q, b) && sameWindow, GapPoints(q, f, hist, b))
  {
    hide Naive, InWindow, StepOf, Aligned;
    KeptResults(q, f, kept, hist, b, 0);
    if hist == [] {
      NoPadding(q, f, prevStep, FirstStep(q, b));
    } else if !prevNil {
      NaiveEmpty(q, f, hist, LastStep(q, hist) + q.step, FirstStep(q, b) - q.step);
    }
  }

  lemma PaddingIsGap<V>(q: Query, f: WindowFn<V>, kept: seq<Sample>, hist: seq<Sample>, b: Batch, same: bool,
                        prevStep: int)
    requires b != [] && Enough(q, kept, hist, b) && Carries(q, kept, hist, same) && f([]) == None
    requires hist != [] ==> prevStep == LastStep(q, hist)
    ensures Padding(q, f, kept, prevStep, FirstStep(q, b)) == GapPoints(q, f, hist, b)
  {
    hide Naive, InWindow, StepOf, Aligned;
    KeptResults(q, f, kept, hist, b, 0);
    if hist == [] {
      NoPadding(q, f, prevStep, FirstStep(q, b));
    }
  }

  lemma OneStepOnly(q: Query, s: int, n: nat)
    requires n > 0
    ensures Nth(q, s, n - 1) == s <==> n == 1
  {
    if n > 1 {
      NthMonotone(q, s, 0, n - 1);
    }
  }

  /** A batch after the last step: what the buffer gives is what the history gives. */
  lemma LateFacts<V>(q: Query, f: WindowFn<V>, kept: seq<Sample>, hist: seq<Sample>, b: Batch, same: bool,
                     prevStep: int)
    requires b != [] && ValidSamples(q, hist + b) && Carries(q, kept, hist, same) && (Meets(q, hist, b) ==> same)
    requires hist != [] ==> prevStep == LastStep(q, hist)
    requires b[0].time > q.endSample && f([]) == None
    ensures FirstStep(q, b) == LastStep(q, b) == q.endSample && Window(q, b, q.endSample) == [] && Sorted(kept)
    ensures Reaches(q, kept, q.endSample) <==> Reaches(q, hist, q.endSample)
    ensures Window(q, kept, q.endSample) == Window(q, hist, q.endSample)
    ensures prevStep + q.step <= FirstStep(q, b) - q.step ==> UpTo(kept, prevStep)
    ensures Padding(q, f, kept, prevStep, FirstStep(q, b)) == GapPoints(q, f, hist, b)
  {
    hide InWindow, StepOf, Aligned, From, Naive;
    KeptIsEnough(q, kept, hist, b, same);
    StepsMeet(q, hist, b);
    BatchAfter(kept, b);
    WindowNone(b, q.endSample - q.range, q.endSample);
    WindowConcat(kept, b, q.endSample - q.range, q.endSample);
    WindowConcat(hist, b, q.endSample - q.range, q.endSample);
    assert Window(q, kept + b, q.endSample) == Window(q, hist + b, q.endSample);
    assert Window(q, kept, q.endSample) + [] == Window(q, kept, q.endSample);
    assert Window(q, hist, q.endSample) + [] == Window(q, hist, q.endSample);
    KeptResults(q, f, kept, hist, b, 0);
    if hist == [] {
      NoPadding(q, f, prevStep, FirstStep(q, b));
    } else {
      KeptUpTo(q, kept, hist, b, same);
      assert hist[|hist| - 1].time <= LastStep(q, hist) || LastStep(q, hist) == q.endSample;
    }
  }

  lemma LateEnd(q: Query, hist: seq<Sample>, b: Batch)
    requires b != [] && ValidSamples(q, hist + b) && b[0].time > q.endSample
    ensures LastStep(q, b) == q.endSample && q.lastStep <= q.endSample
    ensures (hist + b)[|hist + b| - 1].time > q.endSample
  {
    hide StepOf;
    StepsMeet(q, hist, b);
    BatchAfter(hist, b);
  }

  /** Batch `k` starts after the last step of the query. */
  ghost predicate Late(q: Query, bs: seq<Batch>, k: nat)
    requires ValidSeries(q, bs) && k < |bs|
  {
    bs[k][0].time > q.endSample
  }

  /** Whether there is a previous point before batch `k`. */
  ghost predicate Held(q: Query, bs: seq<Batch>, k: nat)
    requires ValidSeries(q, bs) && k <= |bs|
  {
    k > 0 && HeldAfter(q, Flat(bs[..k - 1]), bs[k - 1], Continues(q, bs, k - 1), Held(q, bs, k - 1))
  }

  ghost predicate EmitsAt(q: Query, bs: seq<Batch>, k: nat)
    requires ValidSeries(q, bs) && k < |bs|
  {
    Late(q, bs, k) && Emits(q, Flat(bs[..k]), Continues(q, bs, k), Held(q, bs, k))
  }

  /** The loss pattern of this reducer: the gap before a batch with a single step that goes
      on, and all of a batch after the last step that gives no point. */
  ghost function GapLoss(q: Query, bs: seq<Batch>): nat -> bool
    requires ValidSeries(q, bs)
  {
    (k: nat) => k < |bs| && ((FirstStep(q, bs[k]) == LastStep(q, bs[k]) && Continues(q, bs, k))
                          || (Late(q, bs, k) && !EmitsAt(q, bs, k)))
  }

  ghost function MainLoss(q: Query, bs: seq<Batch>): nat -> bool
    requires ValidSeries(q, bs)
  {
    (k: nat) => k < |bs| && Late(q, bs, k) && !EmitsAt(q, bs, k)
  }

  lemma OneStep<V>(q: Query, f: WindowFn<V>, xs: seq<Sample>, s: int)
    ensures Naive(q, f, xs, s, s) == PointAt(q, f, xs, s)
  {
    hide InWindow;
    assert PointAt(q, f, xs, s) + [] == PointAt(q, f, xs, s);
  }

  lemma SamePoint<V>(q: Query, f: WindowFn<V>, xs: seq<Sample>, ys: seq<Sample>, s: int)
    requires Window(q, xs, s) == Window(q, ys, s)
    ensures PointAt(q, f, xs, s) == PointAt(q, f, ys, s)
  {
    hide InWindow;
  }

  /** A batch after the last step: steps, windows and neighbours. */
  lemma LateSteps(q: Query, bs: seq<Batch>, k: nat)
    requires ValidSeries(q, bs) && k < |bs| && Late(q, bs, k)
    ensures FirstStep(q, bs[k]) == LastStep(q, bs[k]) == q.endSample
    ensures k + 1 < |bs| ==> Continues(q, bs, k) && Late(q, bs, k + 1)
    ensures Flat(bs[..k + 1]) == Flat(bs[..k]) + bs[k]
    ensures Window(q, Flat(bs[..k + 1]), q.endSample) == Window(q, Flat(bs[..k]), q.endSample)
    ensures Reaches(q, Flat(bs[..k + 1]), q.endSample)
  {
    hide InWindow, StepOf, Aligned, From;
    PrefixValid(q, bs, k);
    var hist, b := Flat(bs[..k]), bs[k];
    FlatStep(bs, k);
    StepsMeet(q, hist, b);
    BatchAfter(hist, b);
    WindowNone(b, q.endSample - q.range, q.endSample);
    WindowConcat(hist, b, q.endSample - q.range, q.endSample);
    assert Window(q, hist, q.endSample) + [] == Window(q, hist, q.endSample);
    if k + 1 < |bs| {
      PrefixValid(q, bs, k + 1);
      StepsMeet(q, hist + b, bs[k + 1]);
      BatchAfter(hist + b, bs[k + 1]);
      assert (hist + b)[|hist + b| - 1].time < bs[k + 1][0].time;
    }
  }

  /** Such a batch adds at most the point of the last step. */
  lemma LateBatch<V>(q: Query, f: WindowFn<V>, bs: seq<Batch>, k: nat)
    requires ValidSeries(q, bs) && k < |bs| && Late(q, bs, k)
    ensures MainPoints(q, f, Flat(bs[..k]), bs[k], Continues(q, bs, k))
         == if Continues(q, bs, k) then [] else PointAt(q, f, Flat(bs[..k]), q.endSample)
  {
    hide InWindow, StepOf, Aligned, Naive, PointAt, Window, Flat;
    var hist, b := Flat(bs[..k]), bs[k];
    LateSteps(q, bs, k);
    OneStep(q, f, hist + b, q.endSample);
    NaiveEmpty(q, f, hist + b, q.endSample, q.endSample - q.step);
    SamePoint(q, f, hist + b, hist, q.endSample);
  }

  /** Before a batch that starts in time there is a previous point exactly if it goes on. */
  lemma HeldInTime(q: Query, bs: seq<Batch>, k: nat)
    requires ValidSeries(q, bs) && k < |bs| && !Late(q, bs, k)
    ensures Held(q, bs, k) == (k > 0 && Continues(q, bs, k - 1)) == Meets(q, Flat(bs[..k]), bs[k])
  {
    hide InWindow, StepOf, Aligned;
    if k > 0 {
      PrefixValid(q, bs, k);
      PrefixValid(q, bs, k - 1);
      FlatStep(bs, k - 1);
      var hist, b := Flat(bs[..k - 1]), bs[k - 1];
      BatchAfter(hist + b, bs[k]);
      BatchAfter(hist, b);
      LastInWindow(q, hist, b);
      assert (hist + b)[|hist + b| - 1] == b[|b| - 1];
      assert (hist + b)[|hist + b| - 1].time < bs[k][0].time;
      assert b[0].time <= b[|b| - 1].time;
    }
  }

  lemma NotHeld(q: Query, bs: seq<Batch>, k: nat)
    requires ValidSeries(q, bs) && 0 < k < |bs| && LastStep(q, bs[k - 1]) < q.endSample
          && LastStep(q, bs[k - 1]) < FirstStep(q, bs[k])
    ensures !Held(q, bs, k)
  {
    hide InWindow, StepOf, Aligned, Window;
    PrefixValid(q, bs, k - 1);
    StepsMeet(q, Flat(bs[..k - 1]), bs[k - 1]);
    assert !Late(q, bs, k - 1);
  }

  lemma HeldNever(q: Query, bs: seq<Batch>)
    requires ValidSeries(q, bs)
    ensures !Held(q, bs, 0)
  {
  }

  lemma ReachedIfDue(q: Query, bs: seq<Batch>, k: nat)
    requires ValidSeries(q, bs) && k <= |bs|
    ensures Window(q, Flat(bs[..k]), q.endSample) != [] ==> Reaches(q, Flat(bs[..k]), q.endSample)
  {
    hide InWindow;
    FlatPrefix(bs, k);
    var xs := Flat(bs[..k]);
    if !Reaches(q, xs, q.endSample) {
      WindowNone(xs, q.endSample - q.range, q.endSample);
    }
  }

  /** Before the first batch after the last step. */
  lemma HeldMeans(q: Query, bs: seq<Batch>, k: nat)
    requires ValidSeries(q, bs) && k < |bs| && Late(q, bs, k) && (k == 0 || !Late(q, bs, k - 1))
    ensures Held(q, bs, k) <==> k > 0 && Continues(q, bs, k - 1) && Window(q, Flat(bs[..k]), q.endSample) != []
  {
    hide InWindow, StepOf, Aligned, Window;
    LateSteps(q, bs, k);
    if k > 0 {
      FlatStep(bs, k - 1);
    }
  }

  lemma BeforeBatch(q: Query, bs: seq<Batch>, k: nat)
    requires ValidSeries(q, bs) && k < |bs|
    ensures ValidSamples(q, Flat(bs[..k]) + bs[k]) && ValidSamples(q, bs[k])
         && Flat(bs[..k + 1]) == Flat(bs[..k]) + bs[k]
    ensures Meets(q, Flat(bs[..k]), bs[k]) == (k > 0 && Continues(q, bs, k - 1))
    ensures !Late(q, bs, k) ==> Held(q, bs, k) == Meets(q, Flat(bs[..k]), bs[k])
    ensures Held(q, bs, k + 1) == HeldAfter(q, Flat(bs[..k]), bs[k], Continues(q, bs, k), Held(q, bs, k))
  {
    hide InWindow, StepOf, Window, HeldAfter;
    PrefixValid(q, bs, k);
    BatchSamples(q, Flat(bs[..k]), bs[k]);
    FlatStep(bs, k);
    if k > 0 {
      FlatStep(bs, k - 1);
      assert Flat(bs[..k])[|Flat(bs[..k])| - 1] == bs[k - 1][|bs[k - 1]| - 1];
    }
    if !Late(q, bs, k) {
      HeldInTime(q, bs, k);
    }
  }

  lemma InTimePattern(q: Query, bs: seq<Batch>, k: nat)
    requires ValidSeries(q, bs) && k < |bs| && !Late(q, bs, k)
    ensures !EmitsAt(q, bs, k) && !MainLoss(q, bs)(k)
    ensures GapLoss(q, bs)(k) <==> FirstStep(q, bs[k]) == LastStep(q, bs[k]) && Continues(q, bs, k)
  {
  }

  /** The point of the last step is due and a batch after that step does not give it. */
  ghost predicate LosesFinal<V>(q: Query, f: WindowFn<V>, bs: seq<Batch>)
    requires ValidSeries(q, bs) && bs != []
  {
    var k := |bs| - 1;
    Late(q, bs, k) && !EmitsAt(q, bs, k) && f(Window(q, Flat(bs[..k]), q.endSample)).Some?
  }

  /** A gap before batch `k` gets lost exactly if its padding is skipped. */
  lemma GapLossMeans(q: Query, bs: seq<Batch>, k: nat)
    requires ValidSeries(q, bs) && 0 < k < |bs| && LastStep(q, bs[k - 1]) < FirstStep(q, bs[k])
    ensures GapLoss(q, bs)(k) <==> SkipsGap(q, bs, k)
  {
    hide InWindow, StepOf, Aligned, Held, Window;
    PrefixValid(q, bs, k);
    var hist := Flat(bs[..k]);
    StepsMeet(q, hist, bs[k]);
    FlatStep(bs, k - 1);
    assert hist[|hist| - 1] == bs[k - 1][|bs[k - 1]| - 1];
    if Late(q, bs, k) {
      LateSteps(q, bs, k);
      NotHeld(q, bs, k);
    }
  }

  /** What is lost at batch `k`: a gap that is due, or the last step. */
  lemma LossIsDrop<V>(q: Query, f: WindowFn<V>, bs: seq<Batch>, k: nat)
    requires ValidSeries(q, bs) && k < |bs|
    ensures LostAt(q, f, bs, k, GapLoss(q, bs), MainLoss(q, bs)) == 0
       <==> !(k > 0 && GapPoints(q, f, Flat(bs[..k]), bs[k]) != [] && SkipsGap(q, bs, k))
            && !(k + 1 == |bs| && LosesFinal(q, f, bs))
  {
    hide InWindow, StepOf, Aligned, MainPoints, Window, EmitsAt, SkipsGap, Naive;
    PrefixValid(q, bs, k);
    var hist, b := Flat(bs[..k]), bs[k];
    if k > 0 {
      if LastStep(q, hist) < FirstStep(q, b) {
        GapLossMeans(q, bs, k);
      } else {
        NaiveEmpty(q, f, hist, LastStep(q, hist) + q.step, FirstStep(q, b) - q.step);
      }
    }
    if Late(q, bs, k) {
      LateSteps(q, bs, k);
      LateBatch(q, f, bs, k);
    }
  }

  /** The pieces of a run add up to the reference exactly if nothing due is lost. */
  lemma LossesAreExact<V>(q: Query, f: WindowFn<V>, bs: seq<Batch>)
    requires ValidSeries(q, bs) && bs != [] && f([]) == None
    ensures Emitted(q, f, bs, |bs|, GapLoss(q, bs), MainLoss(q, bs))
            + Naive(q, f, Flat(bs), LastStep(q, bs[|bs| - 1]) + q.step, q.lastStep) == Expected(q, f, bs)
       <==> (forall k :: 0 < k < |bs| ==> !(GapPoints(q, f, Flat(bs[..k]), bs[k]) != [] && SkipsGap(q, bs, k)))
            && !LosesFinal(q, f, bs)
  {
    hide Naive, StepOf, SkipsGap, LostAt, GapLoss, MainLoss, Expected, Emitted, LosesFinal, GapPoints, Flat,
      ValidSamples;
    var n := |bs|;
    WholeRun(q, f, bs, GapLoss(q, bs), MainLoss(q, bs),
             Naive(q, f, Flat(bs), LastStep(q, bs[n - 1]) + q.step, q.lastStep));
    forall k: nat | k < n
      ensures LostAt(q, f, bs, k, GapLoss(q, bs), MainLoss(q, bs)) == 0
         <==> !(k > 0 && GapPoints(q, f, Flat(bs[..k]), bs[k]) != [] && SkipsGap(q, bs, k))
              && !(k + 1 == n && LosesFinal(q, f, bs))
    {
      LossIsDrop(q, f, bs, k);
    }
    LossIsDrop(q, f, bs, n - 1);
  }

  /** If something is in the window of the last step, a last batch after it gives a point
      exactly if the step did not go on in that batch. */
  lemma DueFinal(q: Query, bs: seq<Batch>)
    requires ValidSeries(q, bs) && bs != [] && Late(q, bs, |bs| - 1)
          && Window(q, Flat(bs[..|bs| - 1]), q.endSample) != []
    ensures EmitsAt(q, bs, |bs| - 1) <==> !(|bs| >= 2 && Continues(q, bs, |bs| - 2))
  {
    hide InWindow, StepOf, Aligned, Window;
    var n := |bs|;
    LateSteps(q, bs, n - 1);
    ReachedIfDue(q, bs, n - 1);
    if n >= 2 && Late(q, bs, n - 2) {
      LateSteps(q, bs, n - 2);
      ReachedIfDue(q, bs, n - 2);
    } else {
      HeldMeans(q, bs, n - 1);
    }
  }

  /** A batch whose last step is wrongly held back starts in time, and all it gives is
      before that step. */
  lemma MisledBatch<V>(q: Query, f: WindowFn<V>, records: seq<Batch>, k: nat)
    requires ValidRecords(q, records) && k < |records| && Misled(q, records, k)
    ensures var bs := Filtered(records);
            && !Late(q, bs, k) && k + 1 < |bs|
            && AllBefore(GapPoints(q, f, Flat(bs[..k]), bs[k]), LastStep(q, bs[k]))
            && AllBefore(MainPoints(q, f, Flat(bs[..k]), bs[k], true), LastStep(q, bs[k]))
  {
    hide StepOf, ValidSamples, Flat, NotStale, GapPoints, MainPoints, Window, SeenOn, Sorted;
    var bs: seq<Batch> := Filtered(records);
    LookErrs(q, records, k);
    StepIsOver(q, bs, k);
    PrefixValid(q, bs, k);
    FirstNotLate(q, Flat(bs[..k]), bs[k]);
    PiecesBefore(q, f, Flat(bs[..k]), bs[k], true, LastStep(q, bs[k]));
  }

  lemma FirstNotLate(q: Query, hist: seq<Sample>, b: Batch)
    requires b != [] && ValidSamples(q, hist + b) && b[|b| - 1].time <= LastStep(q, b)
    ensures b[0].time <= q.endSample
  {
    hide StepOf;
    BatchAfter(hist, b);
  }
}

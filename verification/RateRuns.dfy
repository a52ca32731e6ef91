/**
  Whole runs of the reducer behind irate and idelta: every batching of a series gives at
  each step the change between the last two samples of the whole window, and exactly when
  it does not.
 */
module RateRuns {
  import opened Multiples
  import opened PromSteps
  import opened PromWindows
  import opened PromStreaming
  import opened VectorCursor
  import opened StaleMarkers
  import opened PromAnswers
  import opened CarriedPoints
  import opened InstantRate
  import opened RateReducer

  /** Two samples of the history are in the window of the step after it, and that step is
      before batch `k`. */
  ghost predicate PairDue(q: Query, bs: seq<Batch>, k: nat)
    requires ValidSeries(q, bs) && 0 < k < |bs|
  {
    var hist, next := Flat(bs[..k]), LastStep(q, bs[k - 1]) + q.step;
    next < FirstStep(q, bs[k]) && |hist| >= 2 && hist[|hist| - 2].time >= next - q.range
  }

  /** Before batch `k` the steps up to the batch are due and get lost. */
  ghost predicate DropsPairs(q: Query, bs: seq<Batch>, k: nat)
    requires ValidSeries(q, bs) && 0 < k < |bs|
  {
    PairDue(q, bs, k) && SkipsGap(q, bs, k)
  }

  /** The last step goes on in a last batch after it, and two samples are in its window. */
  ghost predicate DropsFinal(q: Query, bs: seq<Batch>)
    requires ValidSeries(q, bs) && bs != []
  {
    var n := |bs|;
    n >= 2 && Late(q, bs, n - 1) && Continues(q, bs, n - 2) && |Window(q, Flat(bs), q.endSample)| >= 2
  }

  /** The series for which the reducer gives the reference result, if the look at the next
      record is right. */
  ghost predicate Clean(q: Query, bs: seq<Batch>)
    requires ValidSeries(q, bs) && bs != []
  {
    (forall k :: 0 < k < |bs| ==> !DropsPairs(q, bs, k)) && !DropsFinal(q, bs)
  }

  lemma TwoAreEnough(isRate: bool)
    ensures forall w :: IRateOf(isRate)(w).Some? <==> |w| >= 2
  {
  }

  lemma GapOfPair(q: Query, isRate: bool, bs: seq<Batch>, k: nat)
    requires ValidSeries(q, bs) && k < |bs|
    ensures GapPoints(q, IRateOf(isRate), Flat(bs[..k]), bs[k]) != [] <==> k > 0 && PairDue(q, bs, k)
  {
    hide Naive, InWindow, StepOf, Aligned, GapPoints, Flat, ValidSamples, IRateOf;
    PrefixValid(q, bs, k);
    NothingFlat(bs);
    TwoAreEnough(isRate);
    GapIsDue(q, IRateOf(isRate), 2, Flat(bs[..k]), bs[k]);
  }

  lemma FinalIsDue(q: Query, isRate: bool, bs: seq<Batch>)
    requires ValidSeries(q, bs) && bs != []
    ensures DropsFinal(q, bs) <==> LosesFinal(q, IRateOf(isRate), bs)
  {
    hide InWindow, StepOf, Aligned, Change, Window, EmitsAt;
    var n := |bs|;
    if Late(q, bs, n - 1) {
      LateSteps(q, bs, n - 1);
      assert bs[..n] == bs;
      if Window(q, Flat(bs[..n - 1]), q.endSample) != [] {
        DueFinal(q, bs);
      }
    }
  }

  lemma CleanIsExact(q: Query, isRate: bool, bs: seq<Batch>)
    requires ValidSeries(q, bs) && bs != []
    ensures Emitted(q, IRateOf(isRate), bs, |bs|, GapLoss(q, bs), MainLoss(q, bs))
            + Naive(q, IRateOf(isRate), Flat(bs), LastStep(q, bs[|bs| - 1]) + q.step, q.lastStep)
            == Expected(q, IRateOf(isRate), bs)
       <==> Clean(q, bs)
  {
    hide Naive, StepOf, PairDue, SkipsGap, GapLoss, MainLoss, Expected, Emitted, Flat, LosesFinal, GapPoints,
      DropsFinal, IRateOf, ValidSamples;
    NothingOfNothing(isRate);
    LossesAreExact(q, IRateOf(isRate), bs);
    FinalIsDue(q, isRate, bs);
    forall k | 0 < k < |bs|
      ensures DropsPairs(q, bs, k) <==> GapPoints(q, IRateOf(isRate), Flat(bs[..k]), bs[k]) != [] && SkipsGap(q, bs, k)
    {
      GapOfPair(q, isRate, bs, k);
    }
  }

  /** What a batch gives if the look at the next record is right. */
  ghost function Pieces(q: Query, isRate: bool, bs: seq<Batch>, k: nat): seq<Point<real>>
    requires ValidSeries(q, bs) && k < |bs|
  {
    Unless(GapLoss(q, bs)(k), GapPoints(q, IRateOf(isRate), Flat(bs[..k]), bs[k]))
    + Unless(MainLoss(q, bs)(k), MainPoints(q, IRateOf(isRate), Flat(bs[..k]), bs[k], Continues(q, bs, k)))
    + Unless(k + 1 < |bs|, Naive(q, IRateOf(isRate), Flat(bs), LastStep(q, bs[k]) + q.step, q.lastStep))
  }

  lemma LatePieces(q: Query, isRate: bool, bs: seq<Batch>, k: nat)
    requires ValidSeries(q, bs) && k < |bs| && Late(q, bs, k)
    ensures Pieces(q, isRate, bs, k)
         == Unless(!EmitsAt(q, bs, k), GapPoints(q, IRateOf(isRate), Flat(bs[..k]), bs[k])
                   + PointAt(q, IRateOf(isRate), Flat(bs[..k]), q.endSample))
  {
    hide Naive, InWindow, StepOf, GapPoints, MainPoints, Window, Flat, Held, PointAt, IRateOf;
    LateSteps(q, bs, k);
    LateBatch(q, IRateOf(isRate), bs, k);
    NaiveEmpty(q, IRateOf(isRate), Flat(bs), LastStep(q, bs[k]) + q.step, q.lastStep);
  }

  // ----- what a wrong look at the next record does

  /** The previous points before batch `k` are those of an earlier step than its first. */
  ghost predicate Tangled(q: Query, records: seq<Batch>, k: nat)
    requires ValidRecords(q, records) && k < |records|
  {
    && k > 0 && SeenOn(q, records, k - 1)
    && (Misled(q, records, k - 1) || (SingleStep(q, records, k - 1) && Tangled(q, records, k - 1)))
  }

  ghost predicate SingleStep(q: Query, records: seq<Batch>, k: nat)
    requires ValidSeries(q, Filtered(records)) && k < |records|
  {
    FirstStep(q, Filtered(records)[k]) == LastStep(q, Filtered(records)[k])
  }

  /** How many samples are in the window of a step once batch `k` is read. */
  ghost function Size(q: Query, records: seq<Batch>, k: nat, s: int): nat
    requires k < |records|
  {
    |Window(q, Flat(Filtered(records)[..k + 1]), s)|
  }

  /** The last step of batch `k` is wrongly held back and has two samples. */
  ghost predicate LosesPair(q: Query, records: seq<Batch>, k: nat)
    requires ValidRecords(q, records) && k < |records|
  {
    Misled(q, records, k) && Size(q, records, k, LastStep(q, Filtered(records)[k])) >= 2
  }

  /** The first step of batch `k` has a single sample, and gets a point from that and one
      of the previous points of an earlier step. */
  ghost predicate MakesUp(q: Query, records: seq<Batch>, k: nat)
    requires ValidRecords(q, records) && k < |records|
  {
    && Tangled(q, records, k) && !Late(q, Filtered(records), k) && !(SingleStep(q, records, k) && SeenOn(q, records, k))
    && Size(q, records, k, FirstStep(q, Filtered(records)[k])) < 2
  }

  /** The steps before batch `k` are lost because its only step is wrongly held back. */
  ghost predicate BlindDrop(q: Query, records: seq<Batch>, k: nat)
    requires ValidRecords(q, records) && k < |records|
  {
    k > 0 && Misled(q, records, k) && SingleStep(q, records, k) && PairDue(q, Filtered(records), k)
  }

  ghost predicate Faulty(q: Query, records: seq<Batch>, k: nat)
    requires ValidRecords(q, records) && k < |records|
  {
    LosesPair(q, records, k) || MakesUp(q, records, k) || BlindDrop(q, records, k)
  }

  ghost predicate Sound(q: Query, records: seq<Batch>, k: nat)
    requires ValidRecords(q, records) && k <= |records|
  {
    forall j :: 0 <= j < k ==> !Faulty(q, records, j)
  }

  /** If the look is right there is no fault. */
  lemma {:induction false} NeverTangled(q: Query, records: seq<Batch>, k: nat)
    requires ValidRecords(q, records) && k < |records| && LooksThrough(q, records)
    ensures !Tangled(q, records, k) && !Faulty(q, records, k)
  {
    hide StepOf, ValidSamples, Flat, NotStale, Sorted, LooksThrough, SeenOn, Size, PairDue;
    RightLook(q, records);
    assert !Misled(q, records, k);
    if k > 0 {
      assert !Misled(q, records, k - 1);
      NeverTangled(q, records, k - 1);
    }
  }

  /** Whether there are previous points before batch `k`, and the samples they stand for. */
  ghost predicate HeldNow(q: Query, records: seq<Batch>, k: nat)
    requires ValidRecords(q, records) && k <= |records|
  {
    var bs := Filtered(records);
    k > 0 && HeldAfter(q, Flat(bs[..k - 1]), bs[k - 1], SeenOn(q, records, k - 1), HeldNow(q, records, k - 1))
  }

  ghost function Carry(q: Query, records: seq<Batch>, k: nat): seq<Sample>
    requires ValidRecords(q, records) && k <= |records|
  {
    var bs := Filtered(records);
    if k == 0 then [] else CarryOver(q, Flat(bs[..k - 1]), bs[k - 1], HeldNow(q, records, k - 1),
                                     Carry(q, records, k - 1))
  }

  /** A batch before one that starts in time. */
  lemma InTimeBefore(q: Query, bs: seq<Batch>, k: nat)
    requires ValidSeries(q, bs) && 0 < k < |bs| && !Late(q, bs, k)
    ensures !Late(q, bs, k - 1)
    ensures var b := bs[k - 1];
            && b[|b| - 1].time < bs[k][0].time && b[|b| - 1].time <= q.endSample && b[|b| - 1].time <= LastStep(q, b)
            && LastStep(q, b) - q.range <= b[|b| - 1].time && Sorted(b)
            && Flat(bs[..k]) == Flat(bs[..k - 1]) + b && Sorted(Flat(bs[..k]))
            && Window(q, Flat(bs[..k]), LastStep(q, b)) != []
  {
    hide InWindow, StepOf, Aligned, Flat, ValidSamples;
    PrefixValid(q, bs, k - 1);
    PrefixValid(q, bs, k);
    var hist, b := Flat(bs[..k - 1]), bs[k - 1];
    Neighbours(q, hist, b, bs[k]);
    LastInWindow(q, hist, b);
    StepsMeet(q, hist, b);
  }

  lemma Neighbours(q: Query, hist: seq<Sample>, b: Batch, next: Batch)
    requires b != [] && next != [] && ValidSamples(q, hist + b) && ValidSamples(q, hist + b + next)
    ensures b[0].time <= b[|b| - 1].time < next[0].time && Sorted(hist + b) && Sorted(b)
  {
    BatchAfter(hist + b, next);
    BatchAfter(hist, b);
    assert (hist + b)[|hist + b| - 1] == b[|b| - 1];
  }

  lemma HeldInTimeNow(q: Query, records: seq<Batch>, k: nat)
    requires ValidRecords(q, records) && k < |records| && !Late(q, Filtered(records), k)
    ensures HeldNow(q, records, k) == (k > 0 && SeenOn(q, records, k - 1))
  {
    hide InWindow, StepOf, Aligned, Flat, ValidSamples, NotStale, Sorted, SeenOn, Window;
    if k > 0 {
      InTimeBefore(q, Filtered(records), k);
    }
  }

  /** A window that reaches the last sample ends with it. */
  lemma WindowEnds(q: Query, xs: seq<Sample>, s: int)
    requires xs != [] && Sorted(xs) && s - q.range <= xs[|xs| - 1].time <= s
    ensures Window(q, xs, s) != [] && Window(q, xs, s)[|Window(q, xs, s)| - 1] == xs[|xs| - 1]
         && Sorted(Window(q, xs, s))
  {
    hide InWindow;
    var i := FromHasCut(xs, s - q.range);
    WindowSlice(xs, s - q.range, s, i, |xs|);
  }

  /** The samples carried end with the last one read. */
  lemma {:induction false} CarryEnds(q: Query, records: seq<Batch>, k: nat)
    requires ValidRecords(q, records) && 0 < k < |records| && !Late(q, Filtered(records), k)
    ensures var v, b := Carry(q, records, k), Filtered(records)[k - 1];
            v != [] && Sorted(v) && v[|v| - 1] == b[|b| - 1]
  {
    hide InWindow, StepOf, Aligned, Flat, ValidSamples, NotStale, SeenOn, Window, HeldNow;
    var bs: seq<Batch> := Filtered(records);
    var b := bs[k - 1];
    InTimeBefore(q, bs, k);
    HeldInTimeNow(q, records, k - 1);
    if HeldNow(q, records, k - 1) && FirstStep(q, b) == LastStep(q, b) {
      CarryEnds(q, records, k - 1);
      InTimeBefore(q, bs, k - 1);
      WindowEnds(q, b, FirstStep(q, b));
      WindowStarts(q, b, FirstStep(q, b));
    } else {
      var xs := Flat(bs[..k]);
      assert xs[|xs| - 1] == b[|b| - 1];
      WindowEnds(q, xs, LastStep(q, b));
    }
  }

  lemma WindowStarts(q: Query, xs: seq<Sample>, s: int)
    requires xs != [] && Sorted(xs)
    ensures forall i :: 0 <= i < |Window(q, xs, s)| ==> xs[0].time <= Window(q, xs, s)[i].time
  {
    hide InWindow;
    var i := FromHasCut(xs, s - q.range);
    var j := FromHasCut(xs, s + 1);
    CutsOrdered(xs, s - q.range, s + 1, i, j);
    WindowSlice(xs, s - q.range, s, i, j);
  }

  /** Unless they are tangled, the samples carried are those of the first step of the batch. */
  lemma {:induction false} CarryExact(q: Query, records: seq<Batch>, k: nat)
    requires ValidRecords(q, records) && 0 < k < |records| && !Late(q, Filtered(records), k)
    requires SeenOn(q, records, k - 1) && !Tangled(q, records, k)
    ensures Carry(q, records, k) == Window(q, Flat(Filtered(records)[..k]), FirstStep(q, Filtered(records)[k]))
  {
    hide InWindow, StepOf, Aligned, Flat, ValidSamples, NotStale, Sorted, HeldNow, SeenOn;
    var bs: seq<Batch> := Filtered(records);
    var b := bs[k - 1];
    InTimeBefore(q, bs, k);
    HeldInTimeNow(q, records, k - 1);
    assert !Misled(q, records, k - 1) && Continues(q, bs, k - 1);
    if HeldNow(q, records, k - 1) && FirstStep(q, b) == LastStep(q, b) {
      CarryExact(q, records, k - 1);
      WindowConcat(Flat(bs[..k - 1]), b, LastStep(q, b) - q.range, LastStep(q, b));
    }
  }

  /** The samples carried give the first step of a batch its value, unless they are tangled
      and the step has a single sample. */
  lemma Agreement(q: Query, isRate: bool, records: seq<Batch>, k: nat)
    requires ValidRecords(q, records) && k < |records| && !Late(q, Filtered(records), k) && HeldNow(q, records, k)
    ensures k > 0 && Flat(Filtered(records)[..k]) != []
    ensures var b, v := Filtered(records)[k], Carry(q, records, k);
            var s := FirstStep(q, b);
            && Sorted(v + Window(q, b, s))
            && (!Tangled(q, records, k) || Size(q, records, k, s) >= 2 ==>
                  Agrees(q, isRate, Flat(Filtered(records)[..k]), b, s, v))
            && IRateOf(isRate)(v + Window(q, b, s)).Some?
  {
    hide InWindow, StepOf, Aligned, Flat, ValidSamples, NotStale, SeenOn, HeldNow, Tangled, Carry, Change;
    var bs: seq<Batch> := Filtered(records);
    var b, v, hist := bs[k], Carry(q, records, k), Flat(bs[..k]);
    var s := FirstStep(q, b);
    HeldInTimeNow(q, records, k);
    CarryEnds(q, records, k);
    InTimeBefore(q, bs, k);
    PrefixValid(q, bs, k);
    StepsMeet(q, hist, b);
    FirstInWindow(q, b);
    WindowStarts(q, b, s);
    WindowSorted(b, s - q.range, s);
    WindowConcat(hist, b, s - q.range, s);
    assert Sorted(v + Window(q, b, s));
    if !Tangled(q, records, k) {
      CarryExact(q, records, k);
    } else if Size(q, records, k, s) >= 2 {
      LastTwoAgree(q, isRate, hist, v, Window(q, b, s), s);
    }
  }

  lemma LastTwoAgree(q: Query, isRate: bool, hist: seq<Sample>, v: seq<Sample>, w: seq<Sample>, s: int)
    requires hist != [] && v != [] && w != [] && Sorted(hist) && v[|v| - 1] == hist[|hist| - 1]
          && hist[|hist| - 1].time <= s
    requires |Window(q, hist, s) + w| >= 2
    ensures IRateOf(isRate)(v + w) == IRateOf(isRate)(Window(q, hist, s) + w)
  {
    hide InWindow, Change;
    if |w| < 2 {
      if hist[|hist| - 1].time >= s - q.range {
        WindowEnds(q, hist, s);
      } else {
        WindowNone(hist, s - q.range, s);
      }
    }
  }

  /** Between a batch and previous points of it there is no due step. */
  lemma NoGapHeld(q: Query, isRate: bool, records: seq<Batch>, k: nat)
    requires ValidRecords(q, records) && 0 < k < |records| && SeenOn(q, records, k - 1) && !LosesPair(q, records, k - 1)
    ensures GapPoints(q, IRateOf(isRate), Flat(Filtered(records)[..k]), Filtered(records)[k]) == []
    ensures Misled(q, records, k - 1) ==> PointAt(q, IRateOf(isRate), Flat(Filtered(records)[..k]), q.endSample) == []
  {
    hide InWindow, StepOf, Aligned, ValidSamples, NotStale, SeenOn, IRateOf, GapPoints, PointAt, Flat;
    var bs: seq<Batch> := Filtered(records);
    LookErrs(q, records, k - 1);
    GapOfPair(q, isRate, bs, k);
    if Misled(q, records, k - 1) {
      FewLeft(q, isRate, bs, k);
    }
  }

  /** With fewer than two samples in the window of the last step of the history there is
      nothing to give for later steps. */
  lemma FewLeft(q: Query, isRate: bool, bs: seq<Batch>, k: nat)
    requires ValidSeries(q, bs) && 0 < k < |bs| && LastStep(q, bs[k - 1]) < FirstStep(q, bs[k])
    requires |Window(q, Flat(bs[..k]), LastStep(q, bs[k - 1]))| < 2
    ensures !PairDue(q, bs, k) && PointAt(q, IRateOf(isRate), Flat(bs[..k]), q.endSample) == []
  {
    hide InWindow, StepOf, Aligned, Flat, Change;
    PrefixValid(q, bs, k);
    StepIsOver(q, bs, k - 1);
    var hist, P := Flat(bs[..k]), LastStep(q, bs[k - 1]);
    BatchAfter(hist, bs[k]);
    FlatStep(bs, k - 1);
    assert hist[|hist| - 1] == bs[k - 1][|bs[k - 1]| - 1];
    SamplesLeft(q, hist, 2, P);
    StepsRise(q, bs, k, k);
    GridEnd(q, FirstStep(q, bs[k]));
    SamplesLeft(q, hist, 2, q.endSample);
  }

  lemma GridEnd(q: Query, s: int)
    ensures q.OnGrid(s) ==> s <= q.endSample
  {
  }

  /** A late batch gives what it would if the look were right: the previous points are the
      same, or there is nothing to give. */
  lemma {:induction false} LateHeld(q: Query, isRate: bool, records: seq<Batch>, k: nat)
    requires ValidRecords(q, records) && k < |records| && Late(q, Filtered(records), k) && Sound(q, records, k)
    ensures var bs := Filtered(records);
            || HeldNow(q, records, k) == Held(q, bs, k)
            || (GapPoints(q, IRateOf(isRate), Flat(bs[..k]), bs[k]) == []
             && PointAt(q, IRateOf(isRate), Flat(bs[..k]), q.endSample) == [])
  {
    hide InWindow, StepOf, Aligned, ValidSamples, NotStale, Sorted, SeenOn, IRateOf, GapPoints, PointAt, Flat, Window,
      LosesPair;
    var bs: seq<Batch> := Filtered(records);
    if k > 0 {
      assert !Faulty(q, records, k - 1);
      LookErrs(q, records, k - 1);
      if !Late(q, bs, k - 1) {
        if Misled(q, records, k - 1) {
          NoGapHeld(q, isRate, records, k);
        }
      } else {
        LateSteps(q, bs, k - 1);
        LateSteps(q, bs, k);
        LateHeld(q, isRate, records, k - 1);
        LateAgain(q, isRate, bs, k);
      }
    }
  }

  lemma LateAgain(q: Query, isRate: bool, bs: seq<Batch>, k: nat)
    requires ValidSeries(q, bs) && 0 < k < |bs| && Late(q, bs, k - 1)
    ensures GapPoints(q, IRateOf(isRate), Flat(bs[..k]), bs[k]) == []
    ensures PointAt(q, IRateOf(isRate), Flat(bs[..k]), q.endSample)
         == PointAt(q, IRateOf(isRate), Flat(bs[..k - 1]), q.endSample)
  {
    hide InWindow, StepOf, Aligned, ValidSamples, IRateOf, Window, Naive;
    LateSteps(q, bs, k - 1);
    PrefixValid(q, bs, k);
    LateSteps(q, bs, k);
    NaiveEmpty(q, IRateOf(isRate), Flat(bs[..k]), LastStep(q, Flat(bs[..k])) + q.step, FirstStep(q, bs[k]) - q.step);
    SamePoint(q, IRateOf(isRate), Flat(bs[..k]), Flat(bs[..k - 1]), q.endSample);
  }

  /** What is known about batch `k`. */
  ghost function CourseOf(q: Query, records: seq<Batch>, k: nat): Course
    requires ValidRecords(q, records) && k < |records|
  {
    if !Sound(q, records, k) then Garbled
    else if Late(q, Filtered(records), k) then Overdue
    else if HeldNow(q, records, k) && Tangled(q, records, k)
         && Size(q, records, k, FirstStep(q, Filtered(records)[k])) < 2 then Vague
    else Timely
  }

  /** What batch `k` gives. */
  ghost predicate Gives(q: Query, isRate: bool, records: seq<Batch>, k: nat, t: int, out: seq<Point<real>>)
    requires ValidRecords(q, records) && k < |records|
  {
    var bs := Filtered(records);
    Output(q, Scene(isRate, [], bs[k], Flat(bs[..k]), Carry(q, records, k), 0, SeenOn(q, records, k),
                    Prev(true, NO_ENDS, 0),
                    CourseOf(q, records, k), t),
           HeldNow(q, records, k), k + 1 == |bs|, out)
  }

  /** The state of the reducer before batch `k`. */
  ghost predicate Poised(r: RateReducer, q: Query, records: seq<Batch>, k: nat)
    requires ValidRecords(q, records) && k <= |records|
    reads r, r.ringBuf
  {
    var hist, same := Flat(Filtered(records)[..k]), k > 0 && SeenOn(q, records, k - 1);
    r.Kept(q, hist, same)
    && (Sound(q, records, k) ==> r.Ready(q, hist, same, HeldNow(q, records, k), Carry(q, records, k)))
  }

  lemma FirstPoised(r: RateReducer, q: Query, records: seq<Batch>)
    requires ValidRecords(q, records) && r.Ready(q, [], false, false, [])
    ensures Poised(r, q, records, 0)
  {
    NothingFlat(Filtered(records));
  }

  /** What the reducer needs to know about batch `k`. */
  lemma BeforeTurn(q: Query, isRate: bool, records: seq<Batch>, k: nat)
    requires ValidRecords(q, records) && k < |records|
    ensures var bs, course := Filtered(records), CourseOf(q, records, k);
            var hist, b, v := Flat(bs[..k]), bs[k], Carry(q, records, k);
            var s := FirstStep(q, b);
            && ValidSamples(q, hist + b) && ValidSamples(q, b) && Flat(bs[..k + 1]) == hist + b
            && (Meets(q, hist, b) ==> k > 0 && SeenOn(q, records, k - 1))
            && (course.Timely? ==>
                  && b[0].time <= q.endSample
                  && (HeldNow(q, records, k) ==> hist != [] && Agrees(q, isRate, hist, b, s, v)))
            && (course.Vague? ==>
                  b[0].time <= q.endSample && HeldNow(q, records, k) && hist != [] && Sorted(v + Window(q, b, s)))
            && (course.Overdue? ==> b[0].time > q.endSample)
            && (k > 0 ==> hist != [] && LastStep(q, hist) == LastStep(q, bs[k - 1]))
  {
    hide InWindow, StepOf, Aligned, ValidSamples, NotStale, Sorted, SeenOn, IRateOf, Flat, Window, Tangled, HeldNow,
      Carry, Faulty, Agrees;
    var bs: seq<Batch> := Filtered(records);
    PrefixValid(q, bs, k);
    BatchSamples(q, Flat(bs[..k]), bs[k]);
    MeetsIsSeen(q, records, k);
    if !Late(q, bs, k) && HeldNow(q, records, k) {
      Agreement(q, isRate, records, k);
    }
  }

  /** After a sound batch it is known what the previous points stand for. */
  lemma AfterTurn(q: Query, records: seq<Batch>, k: nat)
    requires ValidRecords(q, records) && k < |records| && Sound(q, records, k + 1)
    ensures Sound(q, records, k)
    ensures Carrying(q, Filtered(records)[k], SeenOn(q, records, k), CourseOf(q, records, k))
    ensures var bs := Filtered(records);
            && HeldNow(q, records, k + 1) == HeldAfter(q, Flat(bs[..k]), bs[k], SeenOn(q, records, k),
                                                       HeldNow(q, records, k))
            && Carry(q, records, k + 1) == CarryOver(q, Flat(bs[..k]), bs[k], HeldNow(q, records, k),
                                                     Carry(q, records, k))
  {
    hide InWindow, StepOf, ValidSamples, NotStale, Sorted, SeenOn, Flat, Window, Tangled, CarryOver, HeldAfter, Size,
      LosesPair, BlindDrop;
    assert !Faulty(q, records, k);
  }

  /** One turn of the cursor loop: record `k`, with a look at the next one. */
  method ReduceBatch(r: RateReducer, q: Query, records: seq<Batch>, k: nat, ghost t: int)
    returns (out: seq<Point<real>>)
    requires ValidRecords(q, records) && k < |records| && Poised(r, q, records, k)
    requires !Sound(q, records, k) ==>
               k > 0 && t < FirstStep(q, Filtered(records)[k]) && t <= LastStep(q, Filtered(records)[k - 1])
    modifies r, r.ringBuf
    ensures k + 1 < |records| ==> Poised(r, q, records, k + 1)
    ensures Gives(q, r.isRate, records, k, t, out)
  {
    hide InWindow, StepOf, Aligned, ValidSamples, NotStale, Sorted, SeenOn, Flat, Window, Meets, IRateOf, HeldNow,
      Carry, Tangled, Faulty,
      CarryOver, HeldAfter, Carrying, Output, Agrees, RateReducer.Kept, RateReducer.Ready;
    ghost var bs: seq<Batch> := Filtered(records);
    ghost var hist, course := Flat(bs[..k]), CourseOf(q, records, k);
    BeforeTurn(q, r.isRate, records, k);
    var b, same, firstStep, index, n := PrepareRecord(q, records, k);
    ghost var c := Scene(r.isRate, r.ringBuf.samples, b, hist, Carry(q, records, k), r.prevStep, same, r.View(), course,
                         t);
    out := r.Aggregate(q, b, firstStep, index, same, k + 1 == |records|, hist, k > 0 && SeenOn(q, records, k - 1),
                       HeldNow(q, records, k), Carry(q, records, k), course, t);
    OutputOf(q, c, HeldNow(q, records, k), k + 1 == |records|, out);
    if Sound(q, records, k + 1) {
      AfterTurn(q, records, k);
    }
  }

  /** The output is described by the history alone. */
  lemma OutputOf(q: Query, c: Scene, held: bool, lastRec: bool, out: seq<Point<real>>)
    requires c.b != [] && Output(q, c, held, lastRec, out)
    ensures Output(q, Scene(c.isRate, [], c.b, c.hist, c.v, 0, c.sameWindow, Prev(true, NO_ENDS, 0), c.course, c.t),
                   held, lastRec, out)
  {
    hide StepOf, IRateOf, GapPoints, MainPoints, Naive, Window, Emit;
  }

  /** The output after the first `k` batches: their pieces and, at the end, the padding
      after the last one. After a fault step `lost` is wrong. */
  ghost predicate SoFar(q: Query, isRate: bool, records: seq<Batch>, k: nat, out: seq<Point<real>>, lost: int)
    requires ValidRecords(q, records) && k <= |records|
  {
    var bs, f := Filtered(records), IRateOf(isRate);
    if !Sound(q, records, k) then k > 0 && Amiss(q, f, bs, k, lost, out)
    else
      out == Emitted(q, f, bs, k, GapLoss(q, bs), MainLoss(q, bs))
             + (if 0 < k == |bs| then Naive(q, f, Flat(bs), LastStep(q, bs[k - 1]) + q.step, q.lastStep) else [])
  }

  lemma StartsWithNothing(q: Query, isRate: bool, records: seq<Batch>, lost: int)
    requires ValidRecords(q, records)
    ensures SoFar(q, isRate, records, 0, [], lost)
  {
    var bs := Filtered(records);
    EmittedNone(q, IRateOf(isRate), bs, GapLoss(q, bs), MainLoss(q, bs));
  }

  /** If the only step of a batch is held back, or its last step has no point, holding it
      back makes no difference. */
  lemma HeldBack(q: Query, isRate: bool, bs: seq<Batch>, k: nat)
    requires ValidSeries(q, bs) && k < |bs| && |Window(q, Flat(bs[..k + 1]), LastStep(q, bs[k]))| < 2
    ensures MainPoints(q, IRateOf(isRate), Flat(bs[..k]), bs[k], true)
         == MainPoints(q, IRateOf(isRate), Flat(bs[..k]), bs[k], false)
  {
    hide InWindow, StepOf, Naive, Flat, Change, Aligned;
    PrefixValid(q, bs, k);
    var hist, b := Flat(bs[..k]), bs[k];
    StepsMeet(q, hist, b);
    GridSpan(q, FirstStep(q, b), LastStep(q, b));
    NaiveSnoc(q, IRateOf(isRate), hist + b, FirstStep(q, b), LastStep(q, b));
  }

  lemma GridSpan(q: Query, s: int, t: int)
    requires q.OnGrid(s) && q.OnGrid(t) && s <= t
    ensures Aligned(t - s, q.step)
  {
    if s < t {
      AlignedGap(s - q.startSample, t - q.startSample, q.step);
      assert t - s == t - q.startSample - (s - q.startSample);
    }
  }

  lemma TimelyPieces(q: Query, isRate: bool, records: seq<Batch>, k: nat, t: int, points: seq<Point<real>>)
    requires ValidRecords(q, records) && k < |records| && Sound(q, records, k + 1)
          && Gives(q, isRate, records, k, t, points)
    requires CourseOf(q, records, k).Timely?
    ensures points == Pieces(q, isRate, Filtered(records), k)
  {
    hide InWindow, StepOf, ValidSamples, NotStale, Sorted, SeenOn, Flat, Window, GapPoints, MainPoints, Naive, IRateOf,
      Tangled, Carry, HeldNow,
      GapLoss, MainLoss, PairDue, MakesUp;
    var bs: seq<Batch> := Filtered(records);
    assert !Faulty(q, records, k);
    LookErrs(q, records, k);
    InTimePattern(q, bs, k);
    HeldInTimeNow(q, records, k);
    GapOfPair(q, isRate, bs, k);
    if HeldNow(q, records, k) {
      assert !Faulty(q, records, k - 1);
      NoGapHeld(q, isRate, records, k);
    }
    if Misled(q, records, k) {
      HeldBack(q, isRate, bs, k);
    }
    assert k + 1 == |bs| ==> bs[..k + 1] == bs;
    PrefixValid(q, bs, k);
  }

  lemma VaguePieces(q: Query, isRate: bool, records: seq<Batch>, k: nat, t: int, points: seq<Point<real>>)
    requires ValidRecords(q, records) && k < |records| && Sound(q, records, k + 1)
          && Gives(q, isRate, records, k, t, points)
    requires CourseOf(q, records, k).Vague?
    ensures points == Pieces(q, isRate, Filtered(records), k)
  {
    hide InWindow, StepOf, ValidSamples, NotStale, Sorted, SeenOn, Flat, Window, GapPoints, MainPoints, Naive, IRateOf,
      Tangled, Carry, HeldNow,
      GapLoss, MainLoss, PairDue, LosesPair, BlindDrop;
    var bs: seq<Batch> := Filtered(records);
    assert !Faulty(q, records, k);
    LookErrs(q, records, k);
    InTimePattern(q, bs, k);
    HeldInTimeNow(q, records, k);
    assert !Faulty(q, records, k - 1);
    NoGapHeld(q, isRate, records, k);
    HeldBack(q, isRate, bs, k);
    SeenMeans(q, records, k);
    NothingPending(q, isRate, bs, k);
  }

  lemma SeenMeans(q: Query, records: seq<Batch>, k: nat)
    requires k < |records| && SeenOn(q, records, k)
    ensures k + 1 < |records|
  {
  }

  lemma NothingPending(q: Query, isRate: bool, bs: seq<Batch>, k: nat)
    requires ValidSeries(q, bs) && k < |bs| && FirstStep(q, bs[k]) == LastStep(q, bs[k])
    ensures MainPoints(q, IRateOf(isRate), Flat(bs[..k]), bs[k], true) == []
  {
    hide StepOf, Naive, Flat, IRateOf;
    NaiveEmpty(q, IRateOf(isRate), Flat(bs[..k]) + bs[k], FirstStep(q, bs[k]), LastStep(q, bs[k]) - q.step);
  }

  lemma OverduePieces(q: Query, isRate: bool, records: seq<Batch>, k: nat, t: int, points: seq<Point<real>>)
    requires ValidRecords(q, records) && k < |records| && Sound(q, records, k)
          && Gives(q, isRate, records, k, t, points)
    requires CourseOf(q, records, k).Overdue?
    ensures points == Pieces(q, isRate, Filtered(records), k)
  {
    hide InWindow, StepOf, ValidSamples, NotStale, Sorted, SeenOn, Flat, Window, GapPoints, MainPoints, Naive, IRateOf,
      Carry, HeldNow, Held, PointAt,
      Faulty, Pieces;
    var bs: seq<Batch> := Filtered(records);
    LookErrs(q, records, k);
    LateSteps(q, bs, k);
    LateHeld(q, isRate, records, k);
    LatePieces(q, isRate, bs, k);
    if k + 1 == |bs| {
      LastUnseen(q, records);
    }
  }

  lemma LastUnseen(q: Query, records: seq<Batch>)
    requires records != []
    ensures !SeenOn(q, records, |records| - 1)
  {
  }

  lemma SoundOn(q: Query, isRate: bool, records: seq<Batch>, k: nat, out: seq<Point<real>>, lost: int,
                points: seq<Point<real>>)
    requires ValidRecords(q, records) && k < |records| && SoFar(q, isRate, records, k, out, lost)
    requires Sound(q, records, k + 1) && Gives(q, isRate, records, k, lost, points)
    ensures SoFar(q, isRate, records, k + 1, out + points, lost)
  {
    hide StepOf, GapPoints, MainPoints, GapLoss, MainLoss, Emitted, Naive, ValidSamples, Flat, NotStale, Sorted, Faulty,
      Gives, IRateOf, HeldNow, Tangled;
    assert Sound(q, records, k);
    EmittedStep(q, IRateOf(isRate), Filtered(records), k, GapLoss(q, Filtered(records)),
                MainLoss(q, Filtered(records)));
    match CourseOf(q, records, k)
    case Timely => TimelyPieces(q, isRate, records, k, lost, points);
    case Vague => VaguePieces(q, isRate, records, k, lost, points);
    case Overdue => OverduePieces(q, isRate, records, k, lost, points);
  }

  /** A point is made up for the first step of the batch. */
  lemma MadeUp(q: Query, isRate: bool, records: seq<Batch>, k: nat, out: seq<Point<real>>, t: int,
               points: seq<Point<real>>)
    requires ValidRecords(q, records) && k < |records| && Sound(q, records, k) && MakesUp(q, records, k)
    requires Gives(q, isRate, records, k, t, points)
    ensures Amiss(q, IRateOf(isRate), Filtered(records), k + 1, FirstStep(q, Filtered(records)[k]), out + points)
  {
    hide InWindow, StepOf, ValidSamples, NotStale, Sorted, SeenOn, Flat, Window, IRateOf, Tangled, Carry, HeldNow,
      LosesPair, BlindDrop, Aligned;
    var bs: seq<Batch> := Filtered(records);
    var s := FirstStep(q, bs[k]);
    TangledIsHeld(q, records, k);
    Agreement(q, isRate, records, k);
    LookErrs(q, records, k);
    PrefixValid(q, bs, k);
    StepsMeet(q, Flat(bs[..k]), bs[k]);
    if k + 1 < |bs| {
      NextStepBeyond(q, records, k);
      LaterBatches(q, bs, k + 1, s);
    } else {
      assert bs[..k + 1] == bs;
    }
    SingleIsSilent(q, isRate, Flat(bs), s);
    GivenPrefix(out, points, s);
  }

  lemma TangledIsHeld(q: Query, records: seq<Batch>, k: nat)
    requires ValidRecords(q, records) && k < |records| && Tangled(q, records, k) && !Late(q, Filtered(records), k)
    ensures k > 0 && HeldNow(q, records, k)
  {
    hide StepOf, ValidSamples, NotStale, Sorted, Flat, SeenOn, HeldNow;
    HeldInTimeNow(q, records, k);
  }

  lemma SingleIsSilent(q: Query, isRate: bool, xs: seq<Sample>, s: int)
    ensures IRateOf(isRate)(Window(q, xs, s)).Some? <==> |Window(q, xs, s)| >= 2
  {
    hide Window;
  }

  /** A batch that is not the last part of its first step is followed by a later step. */
  lemma NextStepBeyond(q: Query, records: seq<Batch>, k: nat)
    requires ValidRecords(q, records) && k + 1 < |records| && !(SingleStep(q, records, k) && SeenOn(q, records, k))
    ensures var bs := Filtered(records);
            FirstStep(q, bs[k]) < FirstStep(q, bs[k + 1]) && FirstStep(q, bs[k]) < bs[k + 1][0].time
  {
    hide StepOf, ValidSamples, NotStale, Sorted, Flat, SeenOn;
    var bs: seq<Batch> := Filtered(records);
    LookErrs(q, records, k);
    PrefixValid(q, bs, k);
    PrefixValid(q, bs, k + 1);
    StepsMeet(q, Flat(bs[..k]), bs[k]);
    StepsMeet(q, Flat(bs[..k + 1]), bs[k + 1]);
    OverBefore(q, bs[k][0].time, bs[k + 1][0].time);
  }

  lemma GivenPrefix(out: seq<Point<real>>, points: seq<Point<real>>, s: int)
    requires points != [] && points[0].ts == s
    ensures Given(out + points, s)
  {
    assert (out + points)[|out|] == points[0];
  }

  /** The last step of the batch is lost. */
  lemma PairLost(q: Query, isRate: bool, records: seq<Batch>, k: nat, out: seq<Point<real>>, t: int,
                 points: seq<Point<real>>)
    requires ValidRecords(q, records) && k < |records| && Sound(q, records, k) && LosesPair(q, records, k)
    requires Gives(q, isRate, records, k, t, points)
    requires out == Emitted(q, IRateOf(isRate), Filtered(records), k, GapLoss(q, Filtered(records)),
                            MainLoss(q, Filtered(records)))
    ensures Amiss(q, IRateOf(isRate), Filtered(records), k + 1, LastStep(q, Filtered(records)[k]), out + points)
         || MakesUp(q, records, k)
  {
    hide InWindow, StepOf, ValidSamples, NotStale, Sorted, Flat, Window, IRateOf, Tangled, Carry, HeldNow, GapPoints,
      MainPoints, Naive, Emitted,
      Amiss, BlindDrop, SeenOn;
    var bs: seq<Batch> := Filtered(records);
    var f := IRateOf(isRate);
    MisledBatch(q, f, records, k);
    EmittedBefore(q, f, bs, k, k, GapLoss(q, bs), MainLoss(q, bs));
    SingleIsSilent(q, isRate, Flat(bs[..k + 1]), LastStep(q, bs[k]));
    if CourseOf(q, records, k).Timely? {
      MisledLoses(q, f, records, k, out, points);
    } else {
      VagueIsTangled(q, records, k);
    }
  }

  lemma VagueIsTangled(q: Query, records: seq<Batch>, k: nat)
    requires ValidRecords(q, records) && k < |records| && CourseOf(q, records, k).Vague?
    ensures Tangled(q, records, k) && !Late(q, Filtered(records), k)
         && Size(q, records, k, FirstStep(q, Filtered(records)[k])) < 2
  {
    hide StepOf, ValidSamples, NotStale, Sorted, Flat, Window, Tangled, HeldNow, Faulty, SeenOn;
  }

  lemma EmittedUpTo<V>(q: Query, f: WindowFn<V>, bs: seq<Batch>, k: nat, gapLost: nat -> bool, mainLost: nat -> bool)
    requires ValidSeries(q, bs) && 0 < k <= |bs|
    ensures AllBefore(Emitted(q, f, bs, k, gapLost, mainLost), LastStep(q, bs[k - 1]) + 1)
  {
    hide StepOf, ValidSamples, Flat, GapPoints, MainPoints;
    EmittedBefore(q, f, bs, k - 1, k - 1, gapLost, mainLost);
    PrefixValid(q, bs, k - 1);
    PiecesBefore(q, f, Flat(bs[..k - 1]), bs[k - 1], Continues(q, bs, k - 1), LastStep(q, bs[k - 1]) + 1);
  }

  /** The steps before the batch are lost. */
  lemma GapLost(q: Query, isRate: bool, records: seq<Batch>, k: nat, out: seq<Point<real>>, t: int,
                points: seq<Point<real>>)
    requires ValidRecords(q, records) && k < |records| && Sound(q, records, k) && BlindDrop(q, records, k)
    requires Gives(q, isRate, records, k, t, points)
    requires out == Emitted(q, IRateOf(isRate), Filtered(records), k, GapLoss(q, Filtered(records)),
                            MainLoss(q, Filtered(records)))
    ensures Amiss(q, IRateOf(isRate), Filtered(records), k + 1, LastStep(q, Filtered(records)[k - 1]) + q.step,
                  out + points)
  {
    hide InWindow, StepOf, ValidSamples, NotStale, Sorted, Flat, Window, IRateOf, Tangled, Carry, HeldNow, GapPoints,
      MainPoints, Naive, Emitted,
      LosesPair, MakesUp, SeenOn, Aligned;
    var bs: seq<Batch> := Filtered(records);
    var f, s := IRateOf(isRate), LastStep(q, bs[k - 1]) + q.step;
    MisledBatch(q, f, records, k);
    NothingPending(q, isRate, bs, k);
    EmittedUpTo(q, f, bs, k, GapLoss(q, bs), MainLoss(q, bs));
    LookErrs(q, records, k);
    DueInGap(q, isRate, bs, k);
    StepsRise(q, bs, k, k);
    assert points == [];
    NotGiven(out, points, s);
  }

  lemma DueInGap(q: Query, isRate: bool, bs: seq<Batch>, k: nat)
    requires ValidSeries(q, bs) && 0 < k < |bs| && PairDue(q, bs, k)
    ensures var s := LastStep(q, bs[k - 1]) + q.step;
            q.OnGrid(s) && s < FirstStep(q, bs[k]) <= LastStep(q, bs[k])
            && IRateOf(isRate)(Window(q, Flat(bs), s)).Some?
  {
    hide *;
    PairFacts(q, bs, k);
    GapGrid(q, bs, k);
    var s := LastStep(q, bs[k - 1]) + q.step;
    LaterBatches(q, bs, k, s);
    PairThere(q, isRate, Flat(bs[..k]), s);
  }

  lemma PairFacts(q: Query, bs: seq<Batch>, k: nat)
    requires ValidSeries(q, bs) && 0 < k < |bs| && PairDue(q, bs, k)
    ensures bs[k - 1] != [] && bs[k] != []
    ensures var hist, next := Flat(bs[..k]), LastStep(q, bs[k - 1]) + q.step;
            next < FirstStep(q, bs[k]) && |hist| >= 2 && hist[|hist| - 2].time >= next - q.range
  {
    hide StepOf, Flat, ValidSamples;
  }

  /** The step after the history, if it is before batch `k`. */
  lemma GapGrid(q: Query, bs: seq<Batch>, k: nat)
    requires ValidSeries(q, bs) && 0 < k < |bs| && LastStep(q, bs[k - 1]) + q.step < FirstStep(q, bs[k])
    ensures var hist, s := Flat(bs[..k]), LastStep(q, bs[k - 1]) + q.step;
            && q.OnGrid(s) && FirstStep(q, bs[k]) <= LastStep(q, bs[k]) && s < bs[k][0].time
            && Sorted(hist) && hist != [] && hist[|hist| - 1].time <= s
  {
    hide InWindow, StepOf, Flat, Aligned, Window;
    var P := LastStep(q, bs[k - 1]);
    PrefixValid(q, bs, k);
    StepIsOver(q, bs, k - 1);
    StepsMeet(q, Flat(bs[..k]), bs[k]);
    GridAhead(q, P, FirstStep(q, bs[k]));
    StartOfGrid(q, P);
    FlatStep(bs, k - 1);
  }

  lemma PairThere(q: Query, isRate: bool, hist: seq<Sample>, s: int)
    requires Sorted(hist) && |hist| >= 2 && hist[|hist| - 1].time <= s && hist[|hist| - 2].time >= s - q.range
    ensures IRateOf(isRate)(Window(q, hist, s)).Some?
  {
    hide IRateOf, Window;
    AllUpToLast(hist, s);
    SamplesLeft(q, hist, 2, s);
    SingleIsSilent(q, isRate, hist, s);
  }

  lemma AllUpToLast(xs: seq<Sample>, s: int)
    requires Sorted(xs) && xs != [] && xs[|xs| - 1].time <= s
    ensures forall k :: 0 <= k < |xs| ==> xs[k].time <= s
  {
  }

  lemma GridAhead(q: Query, s: int, t: int)
    requires q.OnGrid(s) && q.OnGrid(t) && s < t
    ensures s + q.step <= t && q.OnGrid(s + q.step) && (s + q.step < t ==> s + q.step <= t - q.step)
  {
    GridGap(q, s, t);
    if s + q.step < t {
      GridGap(q, s + q.step, t);
    }
  }

  /** A fault at batch `k` makes a step wrong for good. */
  lemma FaultNow(q: Query, isRate: bool, records: seq<Batch>, k: nat, out: seq<Point<real>>, lost: int,
                 points: seq<Point<real>>)
    returns (s: int)
    requires ValidRecords(q, records) && k < |records| && SoFar(q, isRate, records, k, out, lost)
    requires Sound(q, records, k) && Faulty(q, records, k) && Gives(q, isRate, records, k, lost, points)
    ensures SoFar(q, isRate, records, k + 1, out + points, s)
  {
    hide StepOf, Emitted, Naive, ValidSamples, Flat, NotStale, Sorted, Gives, IRateOf, HeldNow, Tangled, MakesUp,
      LosesPair, BlindDrop, Amiss;
    assert !Sound(q, records, k + 1);
    if MakesUp(q, records, k) {
      s := FirstStep(q, Filtered(records)[k]);
      MadeUp(q, isRate, records, k, out, lost, points);
    } else if LosesPair(q, records, k) {
      s := LastStep(q, Filtered(records)[k]);
      PairLost(q, isRate, records, k, out, lost, points);
    } else {
      DropHasPrevious(q, records, k);
      s := LastStep(q, Filtered(records)[k - 1]) + q.step;
      GapLost(q, isRate, records, k, out, lost, points);
    }
  }

  lemma DropHasPrevious(q: Query, records: seq<Batch>, k: nat)
    requires ValidRecords(q, records) && k < |records| && BlindDrop(q, records, k)
    ensures k > 0
  {
  }

  lemma GarbledOn(q: Query, isRate: bool, records: seq<Batch>, k: nat, out: seq<Point<real>>, lost: int,
                  points: seq<Point<real>>)
    requires ValidRecords(q, records) && k < |records| && SoFar(q, isRate, records, k, out, lost)
    requires !Sound(q, records, k) && Gives(q, isRate, records, k, lost, points)
    ensures SoFar(q, isRate, records, k + 1, out + points, lost)
  {
    hide StepOf, Emitted, Naive, ValidSamples, Flat, NotStale, Sorted, IRateOf, HeldNow, Tangled, Faulty, Amiss, SeenOn,
      Carry;
    AmissStays(q, IRateOf(isRate), Filtered(records), k, lost, out, points);
    assert !Sound(q, records, k + 1);
  }

  lemma LostBehind(q: Query, isRate: bool, records: seq<Batch>, k: nat, out: seq<Point<real>>, lost: int)
    requires ValidRecords(q, records) && k < |records| && SoFar(q, isRate, records, k, out, lost)
    ensures !Sound(q, records, k) ==>
      k > 0 && lost < FirstStep(q, Filtered(records)[k]) && lost <= LastStep(q, Filtered(records)[k - 1])
  {
    hide StepOf, Emitted, Naive, ValidSamples, Flat, NotStale, Sorted, Faulty, Window, IRateOf;
  }

  lemma EndsExactly(q: Query, isRate: bool, records: seq<Batch>, out: seq<Point<real>>, lost: int)
    requires ValidRecords(q, records) && records != [] && SoFar(q, isRate, records, |records|, out, lost)
    ensures out == Expected(q, IRateOf(isRate), Filtered(records))
       <==> Sound(q, records, |records|) && Clean(q, Filtered(records))
  {
    hide StepOf, Expected, Emitted, Clean, ValidSamples, Flat, Naive, IRateOf, NotStale, Sorted, Faulty, Amiss;
    if Sound(q, records, |records|) {
      CleanIsExact(q, isRate, Filtered(records));
    } else {
      AmissIsWrong(q, IRateOf(isRate), Filtered(records), lost, out);
    }
  }

  lemma StaysSound(q: Query, records: seq<Batch>, k: nat)
    requires ValidRecords(q, records) && k < |records| && Sound(q, records, k) && !Faulty(q, records, k)
    ensures Sound(q, records, k + 1)
  {
    hide Faulty;
  }

  /** Every batching of a series gives, at every step, the change between the last two
      samples of the whole window that are no staleness markers, exactly if no due gap is
      dropped, the last step does not go on in a last batch after it, and a wrong look at
      the next record neither loses a due step nor makes one up. */
  method Evaluate(isRate: bool, q: Query, records: seq<Batch>) returns (out: seq<Point<real>>)
    requires ValidRecords(q, records)
    ensures records == [] ==> out == []
    ensures records != [] ==>
      (out == Expected(q, IRateOf(isRate), Filtered(records))
      <==> Sound(q, records, |records|) && Clean(q, Filtered(records)))
    ensures records != [] ==>
      (Answers(q, Fresh(records), RateMeaning(isRate), out)
      <==> Sound(q, records, |records|) && Clean(q, Filtered(records)))
  {
    hide StepOf, SoFar, Gives, Expected, Clean, ValidSamples, Sorted, Flat, Poised, NotStale, Sound, Faulty, IRateOf,
      Answers, Computes, RateReducer.Ready;
    ghost var lost := 0;
    out := [];
    var r := new RateReducer(isRate);
    StartsWithNothing(q, isRate, records, lost);
    FirstPoised(r, q, records);
    for k := 0 to |records|
      invariant fresh(r) && fresh(r.ringBuf) && r.isRate == isRate
      invariant k < |records| ==> Poised(r, q, records, k)
      invariant SoFar(q, isRate, records, k, out, lost) && (k == 0 ==> out == [])
    {
      LostBehind(q, isRate, records, k, out, lost);
      var points := ReduceBatch(r, q, records, k, lost);
      if !Sound(q, records, k) {
        GarbledOn(q, isRate, records, k, out, lost, points);
      } else if Faulty(q, records, k) {
        lost := FaultNow(q, isRate, records, k, out, lost, points);
      } else {
        StaysSound(q, records, k);
        SoundOn(q, isRate, records, k, out, lost, points);
      }
      out := out + points;
    }
    if records != [] {
      EndsExactly(q, isRate, records, out, lost);
      RatesMean(isRate);
      RecordsAnswer(q, IRateOf(isRate), RateMeaning(isRate), records, out);
    }
  }
}

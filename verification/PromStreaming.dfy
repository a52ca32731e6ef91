/**
  A series that arrives in batches.  For every cut into batches, the reference
  result is the concatenation of one gap piece (steps between two batches) and
  one main piece (steps reached by the batch itself) per batch.  A streaming
  reducer that drops some of these pieces agrees with the reference exactly when
  every piece it drops is empty.
 */
module PromStreaming {
  import opened Multiples
  import opened Options
  import opened PromSteps
  import opened PromWindows

  type Batch = seq<Sample>

  /** Row positions are stored in 16 bits. */
  const MAX_ROWS := 65535

  function Flat(bs: seq<Batch>): seq<Sample> {
    if bs == [] then [] else Flat(bs[..|bs| - 1]) + bs[|bs| - 1]
  }

  lemma NothingFlat(bs: seq<Batch>)
    ensures Flat(bs[..0]) == []
  {
  }

  /** The record cursor below hands over non-empty batches of one series in time
      order, none of them before the start of the first window. */
  ghost predicate ValidSeries(q: Query, bs: seq<Batch>) {
    && (forall k :: 0 <= k < |bs| ==> 0 < |bs[k]| <= MAX_ROWS)
    && ValidSamples(q, Flat(bs))
  }

  ghost predicate ValidSamples(q: Query, xs: seq<Sample>) {
    && Sorted(xs)
    && (forall i :: 0 <= i < |xs| ==> q.startSample - q.range <= xs[i].time)
  }

  function FirstStep(q: Query, b: Batch): int
    requires b != []
  {
    StepOf(q, b[0].time)
  }

  function LastStep(q: Query, b: Batch): int
    requires b != []
  {
    StepOf(q, b[|b| - 1].time)
  }

  /** The last step of a batch goes on in the next one. */
  predicate Continues(q: Query, bs: seq<Batch>, k: nat)
    requires forall i :: 0 <= i < |bs| ==> bs[i] != []
    requires k < |bs|
  {
    k + 1 < |bs| && LastStep(q, bs[k]) == FirstStep(q, bs[k + 1])
  }

  /** The padding before batch `k` is left out: its only step goes on in the next batch,
      or it starts after the last step and nothing is in the window of that step. */
  ghost predicate SkipsGap(q: Query, bs: seq<Batch>, k: nat)
    requires ValidSeries(q, bs) && 0 < k < |bs|
  {
    || (FirstStep(q, bs[k]) == LastStep(q, bs[k]) && Continues(q, bs, k))
    || (bs[k][0].time > q.endSample && bs[k - 1][|bs[k - 1]| - 1].time < q.endSample - q.range)
  }

  /** Before batch `k` the steps `P + step, ...` up to the batch are due and get lost,
      where `P` is the last step of the history. */
  ghost predicate DropsGap(q: Query, bs: seq<Batch>, k: nat)
    requires ValidSeries(q, bs) && 0 < k < |bs|
  {
    var P := LastStep(q, bs[k - 1]);
    P + q.step < FirstStep(q, bs[k]) && bs[k - 1][|bs[k - 1]| - 1].time >= P + q.step - q.range && SkipsGap(q, bs, k)
  }

  /** The steps strictly between the last step of `hist` and the first of `b`. */
  function GapPoints<V>(q: Query, f: WindowFn<V>, hist: seq<Sample>, b: Batch): seq<Point<V>>
    requires b != []
  {
    if hist == [] then [] else Naive(q, f, hist, LastStep(q, hist) + q.step, FirstStep(q, b) - q.step)
  }

  /** The last step that is complete once the batch is read. */
  function DoneStep(q: Query, b: Batch, continues: bool): int
    requires b != []
  {
    if continues then LastStep(q, b) - q.step else LastStep(q, b)
  }

  function MainPoints<V>(q: Query, f: WindowFn<V>, hist: seq<Sample>, b: Batch, continues: bool): seq<Point<V>>
    requires b != []
  {
    Naive(q, f, hist + b, FirstStep(q, b), DoneStep(q, b, continues))
  }

  function Unless<T>(lost: bool, xs: seq<T>): seq<T> {
    if lost then [] else xs
  }

  /** The loss pattern of a reducer that loses nothing. */
  predicate Never(k: nat) {
    false
  }

  /** What a reducer emits for the first `n` batches if it loses the gap piece of
      batch `k` when `gapLost(k)` and the main piece when `mainLost(k)`. */
  ghost function Emitted<V>(q: Query, f: WindowFn<V>, bs: seq<Batch>, n: nat, gapLost: nat -> bool,
                            mainLost: nat -> bool)
    : seq<Point<V>>
    requires ValidSeries(q, bs) && n <= |bs|
  {
    if n == 0 then [] else
      var hist := Flat(bs[..n - 1]);
      Emitted(q, f, bs, n - 1, gapLost, mainLost)
      + Unless(gapLost(n - 1), GapPoints(q, f, hist, bs[n - 1]))
      + Unless(mainLost(n - 1), MainPoints(q, f, hist, bs[n - 1], Continues(q, bs, n - 1)))
  }

  lemma EmittedNone<V>(q: Query, f: WindowFn<V>, bs: seq<Batch>, gapLost: nat -> bool, mainLost: nat -> bool)
    requires ValidSeries(q, bs)
    ensures Emitted(q, f, bs, 0, gapLost, mainLost) == []
  {
  }

  lemma EmittedStep<V>(q: Query, f: WindowFn<V>, bs: seq<Batch>, k: nat, gapLost: nat -> bool, mainLost: nat -> bool)
    requires ValidSeries(q, bs) && k < |bs|
    ensures Emitted(q, f, bs, k + 1, gapLost, mainLost)
         == Emitted(q, f, bs, k, gapLost, mainLost)
            + (Unless(gapLost(k), GapPoints(q, f, Flat(bs[..k]), bs[k]))
               + Unless(mainLost(k), MainPoints(q, f, Flat(bs[..k]), bs[k], Continues(q, bs, k))))
  {
    hide GapPoints, MainPoints, Continues, StepOf;
  }

  lemma FlatStep(bs: seq<Batch>, n: nat)
    requires n < |bs|
    ensures Flat(bs[..n + 1]) == Flat(bs[..n]) + bs[n]
  {
    assert bs[..n + 1][..n] == bs[..n];
  }

  lemma {:induction false} FlatPrefix(bs: seq<Batch>, n: nat)
    requires n <= |bs|
    ensures |Flat(bs[..n])| <= |Flat(bs)| && Flat(bs[..n]) == Flat(bs)[..|Flat(bs[..n])|]
    decreases |bs| - n
  {
    if n == |bs| {
      assert bs[..n] == bs;
    } else {
      FlatPrefix(bs, n + 1);
      FlatStep(bs, n);
    }
  }

  /** Every prefix of a valid series is valid, and the next batch follows it in time. */
  lemma PrefixValid(q: Query, bs: seq<Batch>, n: nat)
    requires ValidSeries(q, bs) && n < |bs|
    ensures ValidSamples(q, Flat(bs[..n])) && ValidSamples(q, Flat(bs[..n]) + bs[n])
    ensures Flat(bs[..n + 1]) == Flat(bs[..n]) + bs[n]
    ensures n > 0 ==> Flat(bs[..n]) != [] && LastStep(q, Flat(bs[..n])) == LastStep(q, bs[n - 1])
  {
    hide StepOf;
    FlatPrefix(bs, n);
    FlatPrefix(bs, n + 1);
    FlatStep(bs, n);
    if n > 0 {
      FlatStep(bs, n - 1);
    }
  }

  /** Between the last step of the history and the first step of the batch. */
  lemma StepsMeet(q: Query, hist: seq<Sample>, b: Batch)
    requires b != [] && ValidSamples(q, hist + b)
    ensures q.OnGrid(FirstStep(q, b)) && q.OnGrid(LastStep(q, b)) && FirstStep(q, b) <= LastStep(q, b)
    ensures FirstStep(q, b) - q.step < b[0].time || FirstStep(q, b) == q.startSample
    ensures FirstStep(q, b) - q.range <= b[0].time && LastStep(q, b) - q.range <= b[|b| - 1].time
    ensures hist != [] ==> LastStep(q, hist) <= FirstStep(q, b)
    ensures hist != [] && LastStep(q, hist) != FirstStep(q, b) ==> LastStep(q, hist) + q.step <= FirstStep(q, b)
    ensures Sorted(hist) && Sorted(b)
  {
    hide StepOf;
    var xs := hist + b;
    assert forall k :: 0 <= k < |b| ==> b[k] == xs[|hist| + k];
    assert forall k :: 0 <= k < |hist| ==> hist[k] == xs[k];
    StepMonotone(q, b[0].time, b[|b| - 1].time);
    if hist != [] {
      StepMonotone(q, hist[|hist| - 1].time, b[0].time);
      GridGap(q, LastStep(q, hist), FirstStep(q, b));
    }
  }

  /** No window before the first step of the first sample holds anything. */
  lemma NothingBefore<V>(q: Query, f: WindowFn<V>, xs: seq<Sample>)
    requires xs != [] && Sorted(xs) && f([]) == None
    ensures Naive(q, f, xs, q.startSample, FirstStep(q, xs) - q.step) == []
  {
    hide StepOf, Naive, InWindow;
    forall s | q.startSample <= s <= FirstStep(q, xs) - q.step ensures Window(q, xs, s) == [] {
      WindowNone(xs, s - q.range, s);
    }
    NaiveNone(q, f, xs, q.startSample, FirstStep(q, xs) - q.step);
  }

  /** One more batch extends the reference result by its gap and main pieces. */
  lemma TileStep<V>(q: Query, f: WindowFn<V>, hist: seq<Sample>, b: Batch, done: int, continues: bool)
    requires hist != [] && b != [] && ValidSamples(q, hist + b)
    requires done == DoneStep(q, hist, LastStep(q, hist) == FirstStep(q, b))
    ensures Naive(q, f, hist + b, q.startSample, DoneStep(q, b, continues))
         == Naive(q, f, hist, q.startSample, done) + GapPoints(q, f, hist, b) + MainPoints(q, f, hist, b, continues)
  {
    hide Naive, StepOf, InWindow;
    TileMain(q, f, hist, b, continues);
    TileGap(q, f, hist, b, done);
  }

  lemma TileFirst<V>(q: Query, f: WindowFn<V>, b: Batch, continues: bool)
    requires b != [] && ValidSamples(q, [] + b) && f([]) == None
    ensures Naive(q, f, [] + b, q.startSample, DoneStep(q, b, continues)) == MainPoints(q, f, [], b, continues)
  {
    hide Naive, StepOf, InWindow;
    TileMain(q, f, [], b, continues);
    assert [] + b == b;
    NothingBefore(q, f, b);
  }

  lemma TileMain<V>(q: Query, f: WindowFn<V>, hist: seq<Sample>, b: Batch, continues: bool)
    requires b != [] && ValidSamples(q, hist + b)
    ensures Naive(q, f, hist + b, q.startSample, DoneStep(q, b, continues))
         == Naive(q, f, hist + b, q.startSample, FirstStep(q, b) - q.step) + MainPoints(q, f, hist, b, continues)
  {
    hide Naive, StepOf, InWindow;
    StepsMeet(q, hist, b);
    GridGap(q, q.startSample, FirstStep(q, b));
    NaiveSplit(q, f, hist + b, q.startSample, FirstStep(q, b), DoneStep(q, b, continues));
  }

  lemma TileGap<V>(q: Query, f: WindowFn<V>, hist: seq<Sample>, b: Batch, done: int)
    requires hist != [] && b != [] && ValidSamples(q, hist + b)
    requires done == DoneStep(q, hist, LastStep(q, hist) == FirstStep(q, b))
    ensures Naive(q, f, hist + b, q.startSample, FirstStep(q, b) - q.step)
         == Naive(q, f, hist, q.startSample, done) + GapPoints(q, f, hist, b)
  {
    hide Naive, StepOf, InWindow;
    StepsMeet(q, hist, b);
    var F, P := FirstStep(q, b), LastStep(q, hist);
    if F == q.startSample {
      NaiveEmpty(q, f, hist + b, q.startSample, F - q.step);
      NaiveEmpty(q, f, hist, q.startSample, F - q.step);
      NaiveEmpty(q, f, hist, F + q.step, F - q.step);
    } else {
      NaivePrefix(q, f, hist, b, q.startSample, F - q.step);
      if P == F {
        NaiveEmpty(q, f, hist, F + q.step, F - q.step);
      } else {
        GridGap(q, P, F);
        GridGap(q, q.startSample, P + q.step);
        NaiveSplit(q, f, hist, q.startSample, P + q.step, F - q.step);
      }
    }
  }

  /** The step up to which the reference is due after `n` batches. */
  ghost function DueStep(q: Query, bs: seq<Batch>, n: nat): int
    requires ValidSeries(q, bs) && 0 < n <= |bs|
  {
    DoneStep(q, bs[n - 1], Continues(q, bs, n - 1))
  }

  /** With nothing lost, the pieces of the batches are the reference result:
      every step once, whatever the cut. */
  lemma {:induction false} Tiling<V>(q: Query, f: WindowFn<V>, bs: seq<Batch>, n: nat)
    requires ValidSeries(q, bs) && 0 < n <= |bs| && f([]) == None
    ensures Emitted(q, f, bs, n, Never, Never) == Naive(q, f, Flat(bs[..n]), q.startSample, DueStep(q, bs, n))
  {
    hide Naive, StepOf, InWindow;
    PrefixValid(q, bs, n - 1);
    var hist, b, c := Flat(bs[..n - 1]), bs[n - 1], Continues(q, bs, n - 1);
    var before := Emitted(q, f, bs, n - 1, Never, Never);
    assert Emitted(q, f, bs, n, Never, Never) == before + GapPoints(q, f, hist, b) + MainPoints(q, f, hist, b, c);
    if n == 1 {
      TileFirst(q, f, b, c);
    } else {
      Tiling(q, f, bs, n - 1);
      TileStep(q, f, hist, b, DueStep(q, bs, n - 1), c);
    }
  }

  /** The number of points lost at batch `k`. */
  ghost function LostAt<V>(q: Query, f: WindowFn<V>, bs: seq<Batch>, k: nat, gapLost: nat -> bool,
                           mainLost: nat -> bool): nat
    requires ValidSeries(q, bs) && k < |bs|
  {
    (if gapLost(k) then |GapPoints(q, f, Flat(bs[..k]), bs[k])| else 0)
    + (if mainLost(k) then |MainPoints(q, f, Flat(bs[..k]), bs[k], Continues(q, bs, k))| else 0)
  }

  ghost function Lost<V>(q: Query, f: WindowFn<V>, bs: seq<Batch>, n: nat, gapLost: nat -> bool,
                         mainLost: nat -> bool): nat
    requires ValidSeries(q, bs) && n <= |bs|
  {
    if n == 0 then 0 else Lost(q, f, bs, n - 1, gapLost, mainLost) + LostAt(q, f, bs, n - 1, gapLost, mainLost)
  }

  lemma {:induction false} LostLength<V>(q: Query, f: WindowFn<V>, bs: seq<Batch>, n: nat, gapLost: nat -> bool,
                                         mainLost: nat -> bool)
    requires ValidSeries(q, bs) && n <= |bs|
    ensures |Emitted(q, f, bs, n, gapLost, mainLost)| + Lost(q, f, bs, n, gapLost, mainLost)
         == |Emitted(q, f, bs, n, Never, Never)|
  {
    hide Naive, StepOf, InWindow;
    if n > 0 {
      LostLength(q, f, bs, n - 1, gapLost, mainLost);
    }
  }

  lemma {:induction false} NothingLost<V>(q: Query, f: WindowFn<V>, bs: seq<Batch>, n: nat, gapLost: nat -> bool,
                                          mainLost: nat -> bool)
    requires ValidSeries(q, bs) && n <= |bs|
    requires Lost(q, f, bs, n, gapLost, mainLost) == 0
    ensures Emitted(q, f, bs, n, gapLost, mainLost) == Emitted(q, f, bs, n, Never, Never)
  {
    if n > 0 {
      NothingLost(q, f, bs, n - 1, gapLost, mainLost);
      var hist, b, c := Flat(bs[..n - 1]), bs[n - 1], Continues(q, bs, n - 1);
      assert Unless(gapLost(n - 1), GapPoints(q, f, hist, b)) == GapPoints(q, f, hist, b);
      assert Unless(mainLost(n - 1), MainPoints(q, f, hist, b, c)) == MainPoints(q, f, hist, b, c);
    }
  }

  lemma {:induction false} LostNowhere<V>(q: Query, f: WindowFn<V>, bs: seq<Batch>, n: nat, gapLost: nat -> bool,
                                          mainLost: nat -> bool)
    requires ValidSeries(q, bs) && n <= |bs|
    ensures Lost(q, f, bs, n, gapLost, mainLost) == 0
       <==> forall k: nat :: k < n ==> LostAt(q, f, bs, k, gapLost, mainLost) == 0
  {
    hide LostAt, ValidSeries;
    if n > 0 {
      LostNowhere(q, f, bs, n - 1, gapLost, mainLost);
    }
  }

  /** A reducer agrees with the reference exactly when it loses no point at any
      batch, and otherwise its result is too short. */
  lemma ExactlyWhenNothingLost<V>(q: Query, f: WindowFn<V>, bs: seq<Batch>, gapLost: nat -> bool, mainLost: nat -> bool)
    requires ValidSeries(q, bs) && bs != [] && f([]) == None
    ensures var emitted := Emitted(q, f, bs, |bs|, gapLost, mainLost);
            var expected := Naive(q, f, Flat(bs), q.startSample, LastStep(q, bs[|bs| - 1]));
            && |emitted| <= |expected|
            && (emitted == expected <==> |emitted| == |expected|)
            && (emitted == expected <==> forall k: nat :: k < |bs| ==> LostAt(q, f, bs, k, gapLost, mainLost) == 0)
  {
    var n := |bs|;
    Tiling(q, f, bs, n);
    assert bs[..n] == bs;
    LostLength(q, f, bs, n, gapLost, mainLost);
    LostNowhere(q, f, bs, n, gapLost, mainLost);
    if Lost(q, f, bs, n, gapLost, mainLost) == 0 {
      NothingLost(q, f, bs, n, gapLost, mainLost);
    }
  }

  /** The reference result of a series: every step up to the last padded one. */
  ghost function Expected<V>(q: Query, f: WindowFn<V>, bs: seq<Batch>): seq<Point<V>>
    requires ValidSeries(q, bs) && bs != []
  {
    Naive(q, f, Flat(bs), q.startSample, Max(LastStep(q, bs[|bs| - 1]), q.lastStep))
  }

  lemma ExpectedSplit<V>(q: Query, f: WindowFn<V>, bs: seq<Batch>)
    requires ValidSeries(q, bs) && bs != []
    ensures var L := LastStep(q, bs[|bs| - 1]);
            Expected(q, f, bs)
            == Naive(q, f, Flat(bs), q.startSample, L) + Naive(q, f, Flat(bs), L + q.step, q.lastStep)
  {
    hide StepOf, InWindow, Naive, ValidSamples, Flat, PointAt, Aligned;
    var L := LastStep(q, bs[|bs| - 1]);
    GridNext(q, L);
    GridNext(q, q.lastStep);
    if L <= q.lastStep {
      NaiveSplit(q, f, Flat(bs), q.startSample, L + q.step, q.lastStep);
    } else {
      NaiveEmpty(q, f, Flat(bs), L + q.step, q.lastStep);
    }
  }

  lemma ConcatExact<T>(a: seq<T>, x: seq<T>, b: seq<T>, y: seq<T>)
    requires |a| <= |b| && (|a| == |b| ==> a == b) && |x| == |y|
    ensures a + x == b + y <==> a == b && x == y
  {
    if a + x == b + y {
      assert |a| == |b|;
      assert x == (a + x)[|a|..] && y == (b + y)[|a|..];
    }
  }

  /** The whole run of a reducer: the pieces of the batches, then the padding after
      the last one, which may be wrong but has the right length. */
  lemma WholeRun<V>(q: Query, f: WindowFn<V>, bs: seq<Batch>, gapLost: nat -> bool, mainLost: nat -> bool,
                    tail: seq<Point<V>>)
    requires ValidSeries(q, bs) && bs != [] && f([]) == None
    requires |tail| == |Naive(q, f, Flat(bs), LastStep(q, bs[|bs| - 1]) + q.step, q.lastStep)|
    ensures Emitted(q, f, bs, |bs|, gapLost, mainLost) + tail == Expected(q, f, bs)
       <==> && (forall k: nat :: k < |bs| ==> LostAt(q, f, bs, k, gapLost, mainLost) == 0)
            && tail == Naive(q, f, Flat(bs), LastStep(q, bs[|bs| - 1]) + q.step, q.lastStep)
  {
    hide StepOf, InWindow, Naive, Emitted, LostAt;
    ExactlyWhenNothingLost(q, f, bs, gapLost, mainLost);
    ExpectedSplit(q, f, bs);
    var L := LastStep(q, bs[|bs| - 1]);
    ConcatExact(Emitted(q, f, bs, |bs|, gapLost, mainLost), tail,
                Naive(q, f, Flat(bs), q.startSample, L), Naive(q, f, Flat(bs), L + q.step, q.lastStep));
  }

  /** A function that gives a point for every window with at least `m` samples gives
      one at the first step after the history if `m` samples of it reach that step, and
      otherwise at none of the steps up to the batch. */
  lemma GapIsDue<V>(q: Query, f: WindowFn<V>, m: nat, hist: seq<Sample>, b: Batch)
    requires b != [] && ValidSamples(q, hist + b)
    requires m > 0 && forall w :: f(w).Some? <==> |w| >= m
    ensures GapPoints(q, f, hist, b) != []
       <==> && |hist| >= m && LastStep(q, hist) + q.step < FirstStep(q, b)
            && hist[|hist| - m].time >= LastStep(q, hist) + q.step - q.range
  {
    hide InWindow, StepOf, Aligned;
    StepsMeet(q, hist, b);
    if hist != [] && LastStep(q, hist) + q.step < FirstStep(q, b) {
      var s, till := LastStep(q, hist) + q.step, FirstStep(q, b) - q.step;
      GridGap(q, LastStep(q, hist), FirstStep(q, b));
      GridGap(q, s, FirstStep(q, b));
      if |hist| >= m && hist[|hist| - m].time >= s - q.range {
        SamplesLeft(q, hist, m, s);
        assert f(Window(q, hist, s)).Some?;
      } else {
        forall t | s <= t <= till ensures f(Window(q, hist, t)) == None {
          SamplesLeft(q, hist, m, t);
        }
        NaiveSilent(q, f, hist, s, till);
      }
    }
  }

  /** After the history a window holds at least `m` samples exactly if the `m`-th from
      the end is not before it. */
  lemma SamplesLeft(q: Query, hist: seq<Sample>, m: nat, s: int)
    requires Sorted(hist) && m > 0 && forall k :: 0 <= k < |hist| ==> hist[k].time <= s
    ensures |Window(q, hist, s)| >= m <==> |hist| >= m && hist[|hist| - m].time >= s - q.range
  {
    hide InWindow;
    var i := FromHasCut(hist, s - q.range);
    WindowSlice(hist, s - q.range, s, i, |hist|);
  }

  lemma BatchSamples(q: Query, hist: seq<Sample>, b: Batch)
    requires ValidSamples(q, hist + b)
    ensures ValidSamples(q, b)
  {
    BatchAfter(hist, b);
    assert forall k :: 0 <= k < |b| ==> b[k] == (hist + b)[|hist| + k];
  }

  /** A result without a point that is due is wrong, and so is one with a point that is not. */
  lemma WrongStep<V>(q: Query, f: WindowFn<V>, bs: seq<Batch>, s: int, out: seq<Point<V>>)
    requires ValidSeries(q, bs) && bs != [] && q.OnGrid(s) && s <= Max(LastStep(q, bs[|bs| - 1]), q.lastStep)
    requires Given(out, s) != f(Window(q, Flat(bs), s)).Some?
    ensures out != Expected(q, f, bs)
  {
    hide StepOf, InWindow, Naive, Flat;
    StartOfGrid(q, s);
    NaiveAt(q, f, Flat(bs), q.startSample, Max(LastStep(q, bs[|bs| - 1]), q.lastStep), s);
  }

  lemma StartOfGrid(q: Query, s: int)
    requires q.OnGrid(s)
    ensures q.startSample <= s && Aligned(s - q.startSample, q.step)
  {
  }

  lemma {:induction false} StepsRise(q: Query, bs: seq<Batch>, j: nat, k: nat)
    requires ValidSeries(q, bs) && j <= k < |bs|
    ensures LastStep(q, bs[j]) <= LastStep(q, bs[k])
    ensures j < k ==> LastStep(q, bs[j]) <= FirstStep(q, bs[j + 1]) <= LastStep(q, bs[k])
    decreases k - j
  {
    hide StepOf, Flat, ValidSamples;
    if j < k {
      StepsRise(q, bs, j + 1, k);
      PrefixValid(q, bs, j + 1);
      StepsMeet(q, Flat(bs[..j + 1]), bs[j + 1]);
    }
  }

  /** The samples after a prefix of the batches are those of the later batches. */
  lemma LaterSamples(q: Query, bs: seq<Batch>, k: nat) returns (rest: seq<Sample>)
    requires ValidSeries(q, bs) && k < |bs|
    ensures Flat(bs) == Flat(bs[..k]) + rest
    ensures forall i :: 0 <= i < |rest| ==> bs[k][0].time <= rest[i].time
  {
    hide StepOf, Flat;
    FlatPrefix(bs, k);
    FlatPrefix(bs, k + 1);
    FlatStep(bs, k);
    var xs, n := Flat(bs), |Flat(bs[..k])|;
    rest := xs[n..];
    assert xs[n] == Flat(bs[..k + 1])[n] == bs[k][0];
    forall i | 0 <= i < |rest| ensures bs[k][0].time <= rest[i].time {
      assert rest[i] == xs[n + i];
    }
  }

  /** The batches after a step do not change its window. */
  lemma LaterBatches(q: Query, bs: seq<Batch>, k: nat, s: int)
    requires ValidSeries(q, bs) && k < |bs| && s < bs[k][0].time
    ensures Window(q, Flat(bs), s) == Window(q, Flat(bs[..k]), s)
  {
    hide InWindow, StepOf, Flat, ValidSamples;
    var rest := LaterSamples(q, bs, k);
    WindowPrefix(Flat(bs[..k]), rest, s - q.range, s);
  }

  /** A batch that does not go on in the next one: its last step is before the end, and
      its window holds something and does not change any more. */
  lemma StepIsOver(q: Query, bs: seq<Batch>, k: nat)
    requires ValidSeries(q, bs) && k + 1 < |bs| && LastStep(q, bs[k]) < FirstStep(q, bs[k + 1])
    ensures var P := LastStep(q, bs[k]);
            && q.OnGrid(P) && P <= LastStep(q, bs[|bs| - 1]) && P < bs[k + 1][0].time && bs[k][|bs[k]| - 1].time <= P
            && Window(q, Flat(bs), P) == Window(q, Flat(bs[..k + 1]), P)
  {
    hide StepOf, InWindow, Aligned, Flat, ValidSamples;
    PrefixValid(q, bs, k);
    PrefixValid(q, bs, k + 1);
    StepsMeet(q, Flat(bs[..k]), bs[k]);
    StepsMeet(q, Flat(bs[..k + 1]), bs[k + 1]);
    OverBefore(q, bs[k][|bs[k]| - 1].time, bs[k + 1][0].time);
    StepsRise(q, bs, k, |bs| - 1);
    LaterBatches(q, bs, k + 1, LastStep(q, bs[k]));
  }

  lemma OverBefore(q: Query, t: int, u: int)
    requires StepOf(q, t) < StepOf(q, u)
    ensures t <= StepOf(q, t) < u
  {
    if u <= StepOf(q, t) {
      StepMonotone(q, u, StepOf(q, t));
      StepUnique(q, StepOf(q, t), StepOf(q, t));
    }
  }

  /** There is something in the window of the last step of a batch that ends in time. */
  lemma LastStepDue(q: Query, bs: seq<Batch>, k: nat)
    requires ValidSeries(q, bs) && k < |bs| && bs[k][|bs[k]| - 1].time <= LastStep(q, bs[k])
    ensures Window(q, Flat(bs[..k + 1]), LastStep(q, bs[k])) != []
  {
    hide StepOf, InWindow, Flat, ValidSamples;
    PrefixValid(q, bs, k);
    var hist, b, P := Flat(bs[..k]), bs[k], LastStep(q, bs[k]);
    StepsMeet(q, hist, b);
    var xs := hist + b;
    assert xs[|xs| - 1] == b[|b| - 1];
    WindowHas(xs, P - q.range, P, |xs| - 1);
  }

  /** What is given for a batch before its last step. */
  lemma PiecesBefore<V>(q: Query, f: WindowFn<V>, hist: seq<Sample>, b: Batch, sameWindow: bool, t: int)
    requires b != [] && ValidSamples(q, hist + b) && DoneStep(q, b, sameWindow) < t && LastStep(q, b) <= t
    ensures AllBefore(GapPoints(q, f, hist, b), t) && AllBefore(MainPoints(q, f, hist, b, sameWindow), t)
  {
    hide StepOf, Naive, InWindow, ValidSamples;
    StepsMeet(q, hist, b);
    if hist != [] {
      NaiveSpan(q, f, hist, LastStep(q, hist) + q.step, FirstStep(q, b) - q.step, t);
    }
    NaiveSpan(q, f, hist + b, FirstStep(q, b), DoneStep(q, b, sameWindow), t);
  }

  /** What is given for a batch after step `t` of the history. */
  lemma PiecesAfter<V>(q: Query, f: WindowFn<V>, hist: seq<Sample>, b: Batch, sameWindow: bool, t: int)
    requires b != [] && t < FirstStep(q, b) && (hist != [] ==> t <= LastStep(q, hist))
    ensures AllAfter(GapPoints(q, f, hist, b), t) && AllAfter(MainPoints(q, f, hist, b, sameWindow), t)
  {
    hide StepOf, Naive, InWindow;
    if hist != [] {
      NaiveSpan(q, f, hist, LastStep(q, hist) + q.step, FirstStep(q, b) - q.step, t);
    }
    NaiveSpan(q, f, hist + b, FirstStep(q, b), DoneStep(q, b, sameWindow), t);
  }

  /** Everything given for the batches before batch `k` is before its last step. */
  lemma {:induction false} EmittedBefore<V>(q: Query, f: WindowFn<V>, bs: seq<Batch>, n: nat, k: nat,
                                            gapLost: nat -> bool, mainLost: nat -> bool)
    requires ValidSeries(q, bs) && n <= k < |bs|
    ensures AllBefore(Emitted(q, f, bs, n, gapLost, mainLost), LastStep(q, bs[k]))
    decreases n
  {
    hide StepOf, GapPoints, MainPoints, Flat, ValidSamples;
    if n > 0 {
      var j, P := n - 1, LastStep(q, bs[k]);
      EmittedBefore(q, f, bs, j, k, gapLost, mainLost);
      StepsRise(q, bs, j, k);
      PrefixValid(q, bs, j);
      PiecesBefore(q, f, Flat(bs[..j]), bs[j], Continues(q, bs, j), P);
    }
  }
}

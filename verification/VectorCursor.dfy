/**
  The parts the vector cursors share: the two-index pass that finds the row
  interval of every step of a batch, the test whether a step goes on in the next
  batch, and the buffer that keeps the tail of the series between batches.
 */
module VectorCursor {
  import opened Multiples
  import opened Options
  import opened PromSteps
  import opened PromWindows
  import opened PromStreaming

  /** Rows `[lo, hi)` of the batch are its share of the window of step `s`. */
  ghost predicate IsInterval(q: Query, b: Batch, s: int, lo: int, hi: int) {
    0 <= lo <= hi <= |b| && CutsAt(b, s - q.range, lo) && CutsAt(b, s + 1, hi)
  }

  /** Entries `2 * i` and `2 * i + 1` are the interval of the `i`-th step. */
  ghost predicate IntervalAt(q: Query, b: Batch, index: seq<int>, i: int)
    requires b != []
  {
    && 0 <= 2 * i && 2 * i + 1 < |index|
    && IsInterval(q, b, Nth(q, FirstStep(q, b), i), index[2 * i], index[2 * i + 1])
  }

  /** The index holds the intervals of the first `n` steps of the batch. */
  ghost predicate Intervals(q: Query, b: Batch, index: seq<int>, n: nat)
    requires b != []
  {
    |index| == 2 * n && forall i :: 0 <= i < n ==> IntervalAt(q, b, index, i)
  }

  /** The index holds one interval for each of the `n` steps of the batch. */
  ghost predicate IsIndex(q: Query, b: Batch, index: seq<int>, n: nat)
    requires b != []
  {
    n > 0 && Intervals(q, b, index, n) && Nth(q, FirstStep(q, b), n - 1) == LastStep(q, b)
  }

  lemma AddInterval(q: Query, b: Batch, index: seq<int>, n: nat, lo: int, hi: int)
    requires b != [] && Intervals(q, b, index, n)
    requires IsInterval(q, b, Nth(q, FirstStep(q, b), n), lo, hi)
    ensures Intervals(q, b, index + [lo, hi], n + 1)
  {
    hide StepOf, Nth;
    forall i | 0 <= i < n + 1 ensures IntervalAt(q, b, index + [lo, hi], i) {
      assert i < n ==> IntervalAt(q, b, index, i);
    }
  }

  /** Truncation to an unsigned 16-bit row position. */
  function Uint16(x: int): (r: int)
    ensures 0 <= x <= MAX_ROWS ==> r == x
  {
    x % 0x1_0000
  }

  lemma BatchSteps(q: Query, b: Batch)
    requires b != [] && ValidSamples(q, b)
    ensures FirstStep(q, b) <= LastStep(q, b) && LastStep(q, b) - q.range <= b[|b| - 1].time
  {
    StepMonotone(q, b[0].time, b[|b| - 1].time);
  }

  /** Moves a position forward to the first sample at or after time `x`. */
  method Advance(xs: seq<Sample>, from: nat, x: int) returns (i: nat)
    requires Sorted(xs) && from <= |xs|
    requires forall k :: 0 <= k < from ==> xs[k].time < x
    ensures from <= i && CutsAt(xs, x, i)
  {
    i := from;
    while i < |xs| && xs[i].time < x
      invariant from <= i <= |xs|
      invariant forall k :: 0 <= k < i ==> xs[k].time < x
    {
      i := i + 1;
    }
  }

  /** The row interval of one step, appended to the index. */
  method AppendInterval(q: Query, b: Batch, end: int, i0: nat, j0: nat, index0: seq<int>)
    returns (i: nat, j: nat, index: seq<int>)
    requires 0 < |b| <= MAX_ROWS && Sorted(b) && i0 <= |b| && j0 <= |b| && |index0| % 2 == 0
    requires end - q.range <= b[|b| - 1].time
    requires forall k :: 0 <= k < i0 ==> b[k].time < end - q.range
    requires forall k :: 0 <= k < j0 ==> b[k].time < end + 1
    ensures i < |b| && IsInterval(q, b, end, i, j)
    ensures index == index0 + [i, j]
  {
    index := index0;
    i := Advance(b, i0, end - q.range);
    if i < |b| {
      index := index + [Uint16(i)];
    }
    j := Advance(b, j0, end + 1);
    if j < |b| {
      index := index + [Uint16(j)];
    }
    // the boundary value exceeds the maximum time
    if |index| % 2 != 0 {
      index := index + [Uint16(|b|)];
    }
    CutsOrdered(b, end - q.range, end + 1, i, j);
  }

  /** The two-index pass over the steps of a batch. */
  method GetIntervalIndex(q: Query, b: Batch) returns (firstStep: int, index: seq<int>, ghost n: nat)
    requires 0 < |b| <= MAX_ROWS && ValidSamples(q, b)
    ensures firstStep == FirstStep(q, b)
    ensures IsIndex(q, b, index, n)
  {
    hide StepOf, Aligned, Sorted;
    firstStep := GetCurrStep(q, b[0].time);
    var lastStep := GetCurrStep(q, b[|b| - 1].time);
    BatchSteps(q, b);
    index := [];
    n := 0;
    var i, j := 0, 0;
    var end := firstStep;
    while end <= lastStep
      invariant n == 0 ==> end == firstStep
      invariant n > 0 ==> q.OnGrid(end - q.step) && end - q.step <= lastStep && end - q.step == Nth(q, firstStep, n - 1)
      invariant end == Nth(q, firstStep, n)
      invariant 0 <= i < |b| && 0 <= j <= |b|
      invariant forall k :: 0 <= k < i ==> b[k].time < end - q.range
      invariant forall k :: 0 <= k < j ==> b[k].time < end + 1
      invariant Intervals(q, b, index, n)
      decreases lastStep + q.step - end
    {
      if n > 0 {
        GridGap(q, end - q.step, lastStep);
      }
      ghost var before := index;
      i, j, index := AppendInterval(q, b, end, i, j, index);
      AddInterval(q, b, before, n, i, j);
      n := n + 1;
      end := end + q.step;
    }
    if end - q.step < lastStep {
      GridGap(q, end - q.step, lastStep);
    }
  }

  /** Whether the last step of a record goes on in the next one. */
  method IsSameWindow(q: Query, curr: Batch, next: Option<Batch>) returns (same: bool)
    ensures same <==> curr != [] && next.Some? && (next.value == [] || LastStep(q, curr) == FirstStep(q, next.value))
  {
    if next.None? || curr == [] {
      return false;
    }
    if next.value == [] {
      return true;
    }
    var prevStep := GetCurrStep(q, curr[|curr| - 1].time);
    var nextStep := GetCurrStep(q, next.value[0].time);
    same := prevStep == nextStep;
  }

  /** All of `a` is before `x`. */
  lemma FromRight(a: seq<Sample>, b: seq<Sample>, x: int, i: nat)
    requires Sorted(a + b) && CutsAt(b, x, i)
    requires i > 0 || a == [] || a[|a| - 1].time < x
    ensures From(a + b, x) == b[i..]
  {
    forall k | 0 <= k < |a| ensures a[k].time < x {
      assert (a + b)[k] == a[k] && (a + b)[|a| - 1] == a[|a| - 1];
      assert i > 0 ==> (a + b)[|a|] == b[0];
    }
    FromSkip(a, b, x);
    FromCut(b, x, i);
  }

  /** Some of `a` is at or after `x`. */
  lemma FromLeft(a: seq<Sample>, b: seq<Sample>, x: int, i: nat)
    requires Sorted(a + b) && CutsAt(a, x, i)
    requires a != [] && a[|a| - 1].time >= x
    ensures i < |a| && From(a + b, x) == a[i..] + b
  {
    var all := a + b;
    assert forall k :: 0 <= k < |b| ==> all[|a| + k] == b[k];
    assert all[|a| - 1] == a[|a| - 1];
    FromCut(all, x, i);
    assert all[i..] == a[i..] + b;
  }

  /** The samples kept from earlier batches, with the two positions that bound
      the window looked at last. */
  class FloatBuffer {
    var samples: seq<Sample>
    var s: nat
    var e: nat

    constructor ()
      ensures samples == [] && s == 0 && e == 0
    {
      samples := [];
      s, e := 0, 0;
    }

    method Reset()
      modifies this
      ensures samples == [] && s == 0 && e == 0
    {
      samples := [];
      s, e := 0, 0;
    }

    /** The positions never pass the window they were moved to. */
    ghost predicate Before(rangeStart: int, rangeEnd: int)
      reads this
    {
      && s <= |samples| && e <= |samples|
      && (forall k :: 0 <= k < s ==> samples[k].time < rangeStart)
      && (forall k :: 0 <= k < e ==> samples[k].time <= rangeEnd)
    }

    method UpdateIndex(rangeStart: int, rangeEnd: int)
      requires Sorted(samples) && Before(rangeStart, rangeEnd) && rangeStart <= rangeEnd + 1
      modifies this`s, this`e
      ensures CutsAt(samples, rangeStart, s) && CutsAt(samples, rangeEnd + 1, e) && s <= e
      ensures Before(rangeStart, rangeEnd)
      ensures samples[s..e] == InWindow(samples, rangeStart, rangeEnd)
    {
      s := Advance(samples, s, rangeStart);
      e := Advance(samples, e, rangeEnd + 1);
      CutsOrdered(samples, rangeStart, rangeEnd + 1, s, e);
      WindowSlice(samples, rangeStart, rangeEnd, s, e);
    }

    /** After a batch, exactly the samples that a later window can still reach
        are kept. */
    method UpdateValue(q: Query, b: Batch, sameWindow: bool, rangeEnd: int, start: nat)
      requires Sorted(samples) && Sorted(b) && Sorted(samples + b) && start <= |b|
      requires s <= |samples|
      requires forall k :: 0 <= k < s ==> samples[k].time < rangeEnd - q.range
      requires forall k :: 0 <= k < start ==> b[k].time < rangeEnd - q.range
      modifies this
      ensures samples == From(old(samples) + b, KeepFrom(q, rangeEnd, sameWindow))
      ensures s == 0 && e == 0
    {
      var rangeStart := if sameWindow then rangeEnd - q.range else rangeEnd + q.step - q.range;
      if start > 0 || samples == [] || samples[|samples| - 1].time < rangeStart {
        var cut := Advance(b, start, rangeStart);
        FromRight(samples, b, rangeStart, cut);
        samples := b[cut..];
      } else {
        s := Advance(samples, s, rangeStart);
        FromLeft(samples, b, rangeStart, s);
        samples := samples[s..] + b;
      }
      s, e := 0, 0;
    }
  }

  /** The oldest time the buffer has to keep after a batch that ended in
      step `last`. */
  function KeepFrom(q: Query, last: int, sameWindow: bool): int {
    if sameWindow then last - q.range else last + q.step - q.range
  }

  /** What the buffer holds after the samples `hist`. */
  ghost predicate Carries(q: Query, kept: seq<Sample>, hist: seq<Sample>, sameWindow: bool) {
    kept == if hist == [] then [] else From(hist, KeepFrom(q, LastStep(q, hist), sameWindow))
  }

  /** The buffer still holds a sample of the window that ends at `s`, or a later one. */
  ghost predicate Reaches(q: Query, kept: seq<Sample>, s: int) {
    kept != [] && kept[|kept| - 1].time >= s - q.range
  }

  /** The samples kept before batch `b` are enough for every window from its first
      step on, and for the steps between the batches. */
  ghost predicate Enough(q: Query, kept: seq<Sample>, hist: seq<Sample>, b: Batch)
    requires b != []
  {
    && (forall s :: FirstStep(q, b) <= s ==> Window(q, kept + b, s) == Window(q, hist + b, s))
    && (forall s :: FirstStep(q, b) <= s ==> (Reaches(q, kept, s) <==> Reaches(q, hist, s)))
    && (forall s :: hist != [] && LastStep(q, hist) + q.step <= s < FirstStep(q, b) ==>
          Window(q, kept, s) == Window(q, hist, s))
  }

  ghost predicate Meets(q: Query, hist: seq<Sample>, b: Batch)
    requires b != []
  {
    hist != [] && LastStep(q, hist) == FirstStep(q, b)
  }

  lemma KeptCut(q: Query, kept: seq<Sample>, hist: seq<Sample>, b: Batch, same: bool) returns (pre: seq<Sample>)
    requires b != [] && ValidSamples(q, hist + b) && Carries(q, kept, hist, same) && (Meets(q, hist, b) ==> same)
    ensures hist == pre + kept && hist + b == pre + (kept + b)
    ensures forall k :: 0 <= k < |pre| ==> pre[k].time < FirstStep(q, b) - q.range
    ensures hist != [] && !Meets(q, hist, b) ==> forall k :: 0 <= k < |pre| ==>
              pre[k].time < LastStep(q, hist) + q.step - q.range
    ensures Sorted(kept + b)
  {
    hide StepOf, Aligned;
    StepsMeet(q, hist, b);
    if hist == [] {
      pre := [];
    } else {
      var i := FromHasCut(hist, KeepFrom(q, LastStep(q, hist), same));
      pre := hist[..i];
    }
    assert hist + b == pre + (kept + b);
    BatchAfter(pre, kept + b);
  }

  lemma WindowSkip(q: Query, pre: seq<Sample>, xs: seq<Sample>, s: int)
    requires forall k :: 0 <= k < |pre| ==> pre[k].time < s - q.range
    ensures Window(q, pre + xs, s) == Window(q, xs, s)
  {
    WindowNone(pre, s - q.range, s);
    WindowConcat(pre, xs, s - q.range, s);
  }

  lemma KeptIsEnough(q: Query, kept: seq<Sample>, hist: seq<Sample>, b: Batch, same: bool)
    requires b != [] && ValidSamples(q, hist + b) && Carries(q, kept, hist, same) && (Meets(q, hist, b) ==> same)
    ensures Enough(q, kept, hist, b) && Sorted(kept + b)
  {
    hide StepOf, Aligned, InWindow, From;
    var pre := KeptCut(q, kept, hist, b, same);
    StepsMeet(q, hist, b);
    forall s | FirstStep(q, b) <= s ensures Window(q, kept + b, s) == Window(q, hist + b, s) {
      WindowSkip(q, pre, kept + b, s);
    }
    forall s | hist != [] && LastStep(q, hist) + q.step <= s < FirstStep(q, b)
      ensures Window(q, kept, s) == Window(q, hist, s)
    {
      WindowSkip(q, pre, kept, s);
    }
  }

  /** What is kept after the next batch depends on the kept samples only. */
  lemma KeepsCarrying(q: Query, kept: seq<Sample>, hist: seq<Sample>, b: Batch, same: bool, sameWindow: bool)
    requires b != [] && ValidSamples(q, hist + b) && Carries(q, kept, hist, same) && (Meets(q, hist, b) ==> same)
    ensures Carries(q, From(kept + b, KeepFrom(q, LastStep(q, b), sameWindow)), hist + b, sameWindow)
  {
    hide StepOf, Aligned, From;
    var pre := KeptCut(q, kept, hist, b, same);
    StepsMeet(q, hist, b);
    FromSkip(pre, kept + b, KeepFrom(q, LastStep(q, b), sameWindow));
    assert (hist + b)[|hist + b| - 1] == b[|b| - 1];
  }

  /** Results computed from the kept samples are results of the whole series. */
  lemma KeptResults<V>(q: Query, f: WindowFn<V>, kept: seq<Sample>, hist: seq<Sample>, b: Batch, till: int)
    requires b != [] && Enough(q, kept, hist, b) && f([]) == None
    ensures Naive(q, f, kept + b, FirstStep(q, b), till) == Naive(q, f, hist + b, FirstStep(q, b), till)
    ensures hist != [] ==>
              Naive(q, f, kept, LastStep(q, hist) + q.step, FirstStep(q, b) - q.step) == GapPoints(q, f, hist, b)
  {
    hide StepOf, Aligned, InWindow, Window, Naive;
    NaiveCong(q, f, kept + b, hist + b, FirstStep(q, b), till);
    if hist != [] {
      NaiveCong(q, f, kept, hist, LastStep(q, hist) + q.step, FirstStep(q, b) - q.step);
    }
  }

  /** The points of the steps strictly between two batches. */
  ghost function Padding<V>(q: Query, f: WindowFn<V>, kept: seq<Sample>, prevStep: int, firstStep: int): seq<Point<V>> {
    Naive(q, f, kept, prevStep + q.step, firstStep - q.step)
  }

  lemma PaddingAfter<V>(q: Query, f: WindowFn<V>, kept: seq<Sample>, prevStep: int, firstStep: int, t: int)
    requires t <= prevStep
    ensures AllAfter(Padding(q, f, kept, prevStep, firstStep), t)
  {
    hide Naive;
    NaiveSpan(q, f, kept, prevStep + q.step, firstStep - q.step, t);
  }

  lemma NoPadding<V>(q: Query, f: WindowFn<V>, prevStep: int, firstStep: int)
    requires f([]) == None
    ensures Padding(q, f, [], prevStep, firstStep) == []
  {
    NaiveNone(q, f, [], prevStep + q.step, firstStep - q.step);
  }

  /** Once a batch is over, its share of a later window is a suffix of it. */
  lemma TailWindow(q: Query, kept: seq<Sample>, b: Batch, te: int, start: nat)
    requires b != [] && Sorted(kept + b) && b[|b| - 1].time < te
    requires CutsAt(b, te - q.range, start)
    ensures Window(q, kept + b, te) == Window(q, kept, te) + b[start..]
    ensures Reaches(q, kept, te) ==> start == 0 && Window(q, kept, te) != []
    ensures !Reaches(q, kept, te) ==> Window(q, kept, te) == []
  {
    hide InWindow;
    BatchAfter(kept, b);
    WindowConcat(kept, b, te - q.range, te);
    WindowSlice(b, te - q.range, te, start, |b|);
    if Reaches(q, kept, te) {
      assert kept[|kept| - 1].time < b[0].time;
      assert kept[|kept| - 1].time < b[|b| - 1].time;
      WindowHas(kept, te - q.range, te, |kept| - 1);
    } else {
      WindowNone(kept, te - q.range, te);
    }
  }

  lemma WholeWindow(q: Query, kept: seq<Sample>, b: Batch, te: int, i: nat)
    requires b != [] && Sorted(kept + b) && b[|b| - 1].time < te
    requires CutsAt(kept, te - q.range, i)
    ensures Window(q, kept, te) == kept[i..]
  {
    BatchAfter(kept, b);
    assert forall k :: 0 <= k < |kept| ==> kept[k].time < b[|b| - 1].time;
    WindowSlice(kept, te - q.range, te, i, |kept|);
  }

  /** One more step of a batch extends the reference result. */
  lemma MainSnoc<V>(q: Query, f: WindowFn<V>, xs: seq<Sample>, firstStep: int, i: nat, rangeEnd: int,
                    gap: seq<Point<V>>, out0: seq<Point<V>>, out: seq<Point<V>>, pending: bool)
    requires rangeEnd == Nth(q, firstStep, i)
    requires i == 0 ==> out0 == []
    requires i > 0 ==> out0 == gap + Naive(q, f, xs, firstStep, rangeEnd - q.step)
    requires pending ==> out == out0 && (i == 0 ==> gap == [])
    requires !pending ==> out == (if i == 0 then gap else out0) + PointAt(q, f, xs, rangeEnd)
    ensures out == gap + Naive(q, f, xs, firstStep, if pending then rangeEnd - q.step else rangeEnd)
  {
    hide Naive, InWindow;
    NthAligned(q, firstStep, i);
    NaiveSnoc(q, f, xs, firstStep, rangeEnd);
    if i == 0 {
      NaiveEmpty(q, f, xs, firstStep, rangeEnd - q.step);
    }
  }
}

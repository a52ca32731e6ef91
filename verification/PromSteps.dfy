/**
  Step arithmetic of PromQL evaluation: the grid of evaluation steps of one
  query, the step a sample is charged to, and the step a time range ends in.
 */
module PromSteps {
  import opened Multiples

  /** The evaluation grid of a query together with the length of its range
      selector (or look-back delta) and the step up to which results are padded
      after the last record.  All times are in nanoseconds. */
  datatype QueryRaw = Query(startSample: int, endSample: int, step: int, range: int, lastStep: int) {
    predicate OnGrid(s: int)
      requires step > 0
    {
      s <= endSample && Aligned(s - startSample, step)
    }

    predicate Valid() {
      && 0 < step <= range
      && OnGrid(endSample)
      && OnGrid(lastStep)
    }
  }

  /** Queries whose windows overlap or touch (`range >= step`). */
  type Query = q: QueryRaw | q.Valid() witness Query(0, 0, 1, 1, 0)

  function Min(a: int, b: int): int {
    if a <= b then a else b
  }

  function Max(a: int, b: int): int {
    if a <= b then b else a
  }

  /** The step that a sample at time `t` is charged to: the first step of the
      grid that is not before `t`, or the last one if there is none. */
  function StepOf(q: Query, t: int): (s: int)
    ensures q.OnGrid(s)
    ensures t <= s || s == q.endSample
    ensures s == q.startSample || s - q.step < t
  {
    StepFrom(q, q.startSample, t)
  }

  function StepFrom(q: Query, s: int, t: int): (r: int)
    requires q.OnGrid(s) && (s == q.startSample || s - q.step < t)
    ensures q.OnGrid(r) && s <= r
    ensures t <= r || r == q.endSample
    ensures r == q.startSample || r - q.step < t
    decreases q.endSample - s
  {
    if s >= t || s == q.endSample then s
    else
      GridGap(q, s, q.endSample);
      StepFrom(q, s + q.step, t)
  }

  /** The division-based form the cursors use. */
  method GetCurrStep(q: Query, t: int) returns (s: int)
    ensures s == StepOf(q, t)
  {
    if t <= q.startSample {
      return q.startSample;
    }
    var n, r := (t - q.startSample) / q.step, (t - q.startSample) % q.step;
    DivModStep(t - q.startSample, q.step);
    if r > 0 {
      AlignedMultiple(n + 1, q.step);
      s := Min(q.startSample + (n + 1) * q.step, q.endSample);
    } else {
      AlignedMultiple(n, q.step);
      s := Min(t, q.endSample);
    }
    StepUnique(q, t, s);
  }

  /** The last step at or before `t`, cut at both ends of the grid. */
  method GetPrevStep(startSample: int, endSample: int, step: int, t: int) returns (s: int)
    requires step > 0 && Aligned(endSample - startSample, step)
    ensures Aligned(s - startSample, step) && s <= endSample
    ensures s <= t || s == startSample
    ensures t < s + step || s == endSample
  {
    if t <= startSample {
      return startSample;
    }
    if t == endSample {
      return t;
    }
    var n := (t - startSample) / step;
    DivModStep(t - startSample, step);
    AlignedMultiple(n, step);
    s := Min(startSample + n * step, endSample);
  }

  /** The grid of a query over the time range `[start, end]` whose first window
      reaches back to `start`, as the two vector cursors set it up. */
  method NewQuery(start: int, end: int, step: int, range: int, trMax: int) returns (q: Query)
    requires 0 < step <= range
    requires start + range <= end
    ensures q.startSample == start + range && q.step == step && q.range == range
    ensures q.endSample <= end < q.endSample + step
    ensures q.lastStep <= trMax || q.lastStep == q.startSample
    ensures trMax < q.lastStep + step || q.lastStep == q.endSample
  {
    var startSample := start + range;
    DivModStep(end - startSample, step);
    AlignedMultiple((end - startSample) / step, step);
    var endSample := startSample + (end - startSample) / step * step;
    var lastStep := GetPrevStep(startSample, endSample, step, trMax);
    q := Query(startSample, endSample, step, range, lastStep);
  }

  /** The step `i` places after `s`. */
  ghost function Nth(q: Query, s: int, i: nat): (r: int)
    ensures if i == 0 then r == s else r >= s + q.step
  {
    if i == 0 then s else Nth(q, s, i - 1) + q.step
  }

  lemma {:induction false} NthProduct(q: Query, s: int, i: nat)
    ensures Nth(q, s, i) == s + i * q.step
  {
    if i > 0 {
      NthProduct(q, s, i - 1);
    }
  }

  lemma {:induction false} NthMonotone(q: Query, s: int, i: nat, j: nat)
    requires i <= j
    ensures Nth(q, s, i) <= Nth(q, s, j)
  {
    if i < j {
      NthMonotone(q, s, i, j - 1);
    }
  }

  lemma {:induction false} NthAligned(q: Query, s: int, i: nat)
    ensures Aligned(Nth(q, s, i) - s, q.step)
  {
    if i > 0 {
      NthAligned(q, s, i - 1);
      assert Nth(q, s, i) - s - q.step == Nth(q, s, i - 1) - s;
    }
  }

  method StepAt(q: Query, firstStep: int, i: nat) returns (s: int)
    ensures s == Nth(q, firstStep, i)
  {
    NthProduct(q, firstStep, i);
    s := firstStep + i * q.step;
  }

  /** Neighbouring steps of a grid. */
  lemma GridGap(q: QueryRaw, a: int, b: int)
    requires q.step > 0 && q.OnGrid(a) && q.OnGrid(b)
    ensures a < b ==> a + q.step <= b && q.OnGrid(a + q.step) && q.OnGrid(b - q.step)
    ensures a <= b ==> Aligned(b - a, q.step)
  {
    if a < b {
      AlignedGap(a - q.startSample, b - q.startSample, q.step);
      assert a + q.step - q.startSample - q.step == a - q.startSample;
      assert b - q.startSample - q.step == b - q.step - q.startSample;
      assert (b - q.startSample) - (a - q.startSample) == b - a;
    }
  }

  lemma GridNext(q: Query, s: int)
    requires q.OnGrid(s)
    ensures q.startSample <= s && Aligned(s - q.startSample, q.step) && Aligned(s + q.step - q.startSample, q.step)
  {
    assert s + q.step - q.startSample - q.step == s - q.startSample;
  }

  lemma StepUnique(q: Query, t: int, s: int)
    requires q.OnGrid(s)
    requires t <= s || s == q.endSample
    requires s == q.startSample || s - q.step < t
    ensures s == StepOf(q, t)
  {
    GridGap(q, s, StepOf(q, t));
    GridGap(q, StepOf(q, t), s);
  }

  /** Later samples are charged to later steps. */
  lemma StepMonotone(q: Query, t: int, u: int)
    requires t <= u
    ensures StepOf(q, t) <= StepOf(q, u)
  {
    GridGap(q, StepOf(q, u), StepOf(q, t));
  }
}

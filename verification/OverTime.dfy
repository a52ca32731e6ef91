/**
  The reduce and merge functions of sum, count, min, max, last and
  avg_over_time, in exact arithmetic.  Merging the results of two adjacent
  pieces of a window gives the result of the whole window.
 */
module OverTime {
  import opened Options
  import opened PromWindows

  datatype OverTimeFn = SumFn | CountFn | MinFn | MaxFn | LastFn | AvgFn

  function Sum(w: seq<Sample>): real {
    if w == [] then 0.0 else Sum(w[..|w| - 1]) + w[|w| - 1].value
  }

  /** The extreme value under an order: the last of a run of improvements. */
  function Least(w: seq<Sample>): real
    requires w != []
  {
    if |w| == 1 then w[0].value
    else if w[|w| - 1].value < Least(w[..|w| - 1]) then w[|w| - 1].value
    else Least(w[..|w| - 1])
  }

  function Greatest(w: seq<Sample>): real
    requires w != []
  {
    if |w| == 1 then w[0].value
    else if w[|w| - 1].value > Greatest(w[..|w| - 1]) then w[|w| - 1].value
    else Greatest(w[..|w| - 1])
  }

  /** The value of the function on a whole window. */
  function Agg(fn: OverTimeFn, w: seq<Sample>): real
    requires w != []
  {
    match fn
    case SumFn => Sum(w)
    case CountFn => |w| as real
    case MinFn => Least(w)
    case MaxFn => Greatest(w)
    case LastFn => w[|w| - 1].value
    case AvgFn => Sum(w) / |w| as real
  }

  /** The value from the values and counts of two pieces. */
  function Merge(fn: OverTimeFn, prevValue: real, currValue: real, prevCount: int, currCount: int): real
    requires prevCount + currCount > 0
  {
    match fn
    case SumFn => prevValue + currValue
    case CountFn => prevValue + currValue
    case MinFn => if prevValue < currValue then prevValue else currValue
    case MaxFn => if prevValue > currValue then prevValue else currValue
    case LastFn => currValue
    case AvgFn => (prevValue * prevCount as real + currValue * currCount as real) / (prevCount + currCount) as real
  }

  /** The smallest value of the window is one of its values and bounds them all. */
  lemma {:induction false} LeastIsMinimum(w: seq<Sample>)
    requires w != []
    ensures exists i :: 0 <= i < |w| && w[i].value == Least(w)
    ensures forall i :: 0 <= i < |w| ==> Least(w) <= w[i].value
  {
    if |w| == 1 {
      assert w[0].value == Least(w);
    } else {
      var v := w[..|w| - 1];
      LeastIsMinimum(v);
      assert forall i :: 0 <= i < |v| ==> v[i] == w[i];
      assert w[|w| - 1].value == Least(w) || Least(v) == Least(w);
    }
  }

  lemma {:induction false} GreatestIsMaximum(w: seq<Sample>)
    requires w != []
    ensures exists i :: 0 <= i < |w| && w[i].value == Greatest(w)
    ensures forall i :: 0 <= i < |w| ==> w[i].value <= Greatest(w)
  {
    if |w| == 1 {
      assert w[0].value == Greatest(w);
    } else {
      var v := w[..|w| - 1];
      GreatestIsMaximum(v);
      assert forall i :: 0 <= i < |v| ==> v[i] == w[i];
      assert w[|w| - 1].value == Greatest(w) || Greatest(v) == Greatest(w);
    }
  }

  lemma {:induction false} SumConcat(a: seq<Sample>, b: seq<Sample>)
    ensures Sum(a + b) == Sum(a) + Sum(b)
  {
    if b == [] {
      assert a + b == a;
    } else {
      assert (a + b)[..|a + b| - 1] == a + b[..|b| - 1];
      SumConcat(a, b[..|b| - 1]);
    }
  }

  lemma {:induction false} LeastConcat(a: seq<Sample>, b: seq<Sample>)
    requires a != [] && b != []
    ensures Least(a + b) == if Least(a) < Least(b) then Least(a) else Least(b)
  {
    assert (a + b)[..|a + b| - 1] == a + b[..|b| - 1];
    if |b| == 1 {
      assert b[..0] == [] && a + [] == a;
    } else {
      LeastConcat(a, b[..|b| - 1]);
    }
  }

  lemma {:induction false} GreatestConcat(a: seq<Sample>, b: seq<Sample>)
    requires a != [] && b != []
    ensures Greatest(a + b) == if Greatest(a) > Greatest(b) then Greatest(a) else Greatest(b)
  {
    assert (a + b)[..|a + b| - 1] == a + b[..|b| - 1];
    if |b| == 1 {
      assert b[..0] == [] && a + [] == a;
    } else {
      GreatestConcat(a, b[..|b| - 1]);
    }
  }

  /** The values of the window added one after the other. */
  ghost predicate Running(w: seq<Sample>, sums: seq<real>) {
    && |sums| == |w| + 1 && sums[0] == 0.0
    && forall i :: 0 <= i < |w| ==> sums[i + 1] == sums[i] + w[i].value
  }

  ghost predicate AddsUp(w: seq<Sample>, v: real) {
    exists sums: seq<real> :: Running(w, sums) && sums[|w|] == v
  }

  /** What each function over time means for a window that is not empty. */
  ghost predicate Means(fn: OverTimeFn, w: seq<Sample>, v: real) {
    w != [] && match fn
      case SumFn => AddsUp(w, v)
      case CountFn => v == |w| as real
      case MinFn => (exists i :: 0 <= i < |w| && w[i].value == v) && forall i :: 0 <= i < |w| ==> v <= w[i].value
      case MaxFn => (exists i :: 0 <= i < |w| && w[i].value == v) && forall i :: 0 <= i < |w| ==> w[i].value <= v
      case LastFn => exists i :: 0 <= i < |w| && w[i].value == v && IsLatest(w, w[i])
      case AvgFn => AddsUp(w, v * |w| as real)
  }

  ghost predicate IsLatest(w: seq<Sample>, x: Sample) {
    forall j :: 0 <= j < |w| ==> w[j].time <= x.time
  }

  ghost function MeaningOf(fn: OverTimeFn): (seq<Sample>, real) -> bool {
    (w, v) => Means(fn, w, v)
  }

  lemma {:induction false} PartialSums(w: seq<Sample>, sums: seq<real>, n: nat)
    requires Running(w, sums) && n <= |w|
    ensures sums[n] == Sum(w[..n])
  {
    if n > 0 {
      PartialSums(w, sums, n - 1);
      assert w[..n][..n - 1] == w[..n - 1];
    }
  }

  lemma SumAddsUp(w: seq<Sample>, v: real)
    ensures AddsUp(w, v) <==> v == Sum(w)
  {
    assert w[..|w|] == w && w[..0] == [];
    var sums := seq(|w| + 1, i requires 0 <= i <= |w| => Sum(w[..i]));
    forall i | 0 <= i < |w| ensures sums[i + 1] == sums[i] + w[i].value {
      assert w[..i + 1][..i] == w[..i];
    }
    assert Running(w, sums) && sums[|w|] == Sum(w);
    if AddsUp(w, v) {
      var s :| Running(w, s) && s[|w|] == v;
      PartialSums(w, s, |w|);
    }
  }

  lemma LastIsLatest(w: seq<Sample>, i: int)
    requires Sorted(w) && 0 <= i < |w|
    ensures IsLatest(w, w[i]) <==> i == |w| - 1
  {
    if i < |w| - 1 {
      assert w[i].time < w[|w| - 1].time;
    }
  }

  /** The functions compute what they mean. */
  lemma AggMeans(fn: OverTimeFn, w: seq<Sample>, v: real)
    requires Sorted(w) && w != []
    ensures Means(fn, w, v) <==> v == Agg(fn, w)
  {
    hide Sum, Least, Greatest, AddsUp, Sorted, IsLatest;
    match fn
    case SumFn => SumAddsUp(w, v);
    case CountFn =>
    case MinFn => LeastIsMinimum(w);
    case MaxFn => GreatestIsMaximum(w);
    case LastFn =>
      forall i | 0 <= i < |w| ensures IsLatest(w, w[i]) <==> i == |w| - 1 {
        LastIsLatest(w, i);
      }
    case AvgFn =>
      SumAddsUp(w, v * |w| as real);
      QuotientTimes(Sum(w), |w| as real);
      if v * |w| as real == Sum(w) {
        QuotientUnique(Sum(w), |w| as real, v);
      }
  }

  lemma FunctionsMean(fn: OverTimeFn)
    ensures Computes(AggOf(fn), MeaningOf(fn))
  {
    forall w, v | Sorted(w) ensures AggOf(fn)(w) == Some(v) <==> MeaningOf(fn)(w, v) {
      if w != [] {
        AggMeans(fn, w, v);
      }
    }
  }

  /** Merging is homomorphic: two pieces merged are the whole. */
  lemma MergeIsWhole(fn: OverTimeFn, a: seq<Sample>, b: seq<Sample>)
    requires a != [] && b != []
    ensures Merge(fn, Agg(fn, a), Agg(fn, b), |a|, |b|) == Agg(fn, a + b)
  {
    match fn
    case SumFn => SumConcat(a, b);
    case CountFn =>
    case MinFn => LeastConcat(a, b);
    case MaxFn => GreatestConcat(a, b);
    case LastFn =>
    case AvgFn =>
      SumConcat(a, b);
      QuotientTimes(Sum(a), |a| as real);
      QuotientTimes(Sum(b), |b| as real);
  }

  lemma QuotientTimes(x: real, y: real)
    requires y != 0.0
    ensures x / y * y == x
  {
  }

  method ReduceSum(w: seq<Sample>) returns (sum: real)
    ensures sum == Sum(w)
  {
    sum := 0.0;
    for i := 0 to |w|
      invariant sum == Sum(w[..i])
    {
      assert w[..i + 1][..i] == w[..i];
      sum := sum + w[i].value;
    }
    assert w[..|w|] == w;
  }

  method ReduceMin(w: seq<Sample>) returns (minValue: real)
    requires w != []
    ensures minValue == Least(w)
  {
    minValue := w[0].value;
    for i := 1 to |w|
      invariant minValue == Least(w[..i])
    {
      assert w[..i + 1][..i] == w[..i];
      if w[i].value < minValue {
        minValue := w[i].value;
      }
    }
    assert w[..|w|] == w;
  }

  method ReduceMax(w: seq<Sample>) returns (maxValue: real)
    requires w != []
    ensures maxValue == Greatest(w)
  {
    maxValue := w[0].value;
    for i := 1 to |w|
      invariant maxValue == Greatest(w[..i])
    {
      assert w[..i + 1][..i] == w[..i];
      if w[i].value > maxValue {
        maxValue := w[i].value;
      }
    }
    assert w[..|w|] == w;
  }

  /** The running mean. */
  method ReduceAvg(w: seq<Sample>) returns (mean: real)
    requires w != []
    ensures mean == Sum(w) / |w| as real
  {
    mean := 0.0;
    var count := 0.0;
    for i := 0 to |w|
      invariant count == i as real
      invariant mean * count == Sum(w[..i])
    {
      assert w[..i + 1][..i] == w[..i];
      count := count + 1.0;
      ghost var before := mean;
      mean := mean + (w[i].value / count - mean / count);
      MeanStep(before, w[i].value, count, mean);
    }
    assert w[..|w|] == w;
    QuotientUnique(Sum(w), |w| as real, mean);
  }

  lemma MeanStep(mean: real, x: real, count: real, next: real)
    requires count > 0.0 && next == mean + (x / count - mean / count)
    ensures next * count == mean * (count - 1.0) + x
  {
    QuotientTimes(x, count);
    QuotientTimes(mean, count);
  }

  lemma QuotientUnique(x: real, y: real, z: real)
    requires y != 0.0 && z * y == x
    ensures z == x / y
  {
  }

  /** The reduce function of `fn` on rows `[start, end)`. */
  method Reduce(fn: OverTimeFn, xs: seq<Sample>, start: int, end: int) returns (v: real, isNil: bool)
    requires 0 <= start <= end <= |xs|
    ensures isNil <==> start == end
    ensures !isNil ==> v == Agg(fn, xs[start..end])
  {
    if start == end {
      return 0.0, true;
    }
    isNil := false;
    var w := xs[start..end];
    match fn
    case SumFn => v := ReduceSum(w);
    case CountFn => v := (end - start) as real;
    case MinFn => v := ReduceMin(w);
    case MaxFn => v := ReduceMax(w);
    case LastFn => v := xs[end - 1].value;
    case AvgFn => v := ReduceAvg(w);
  }

  /** The reference window function. */
  function AggOf(fn: OverTimeFn): WindowFn<real> {
    w => if w == [] then None else Some(Agg(fn, w))
  }
}

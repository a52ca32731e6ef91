/**
  The functions behind irate and idelta, in exact arithmetic. A piece of a window is
  summed up by its last two samples, and the last two samples of two adjacent pieces
  are found from those of each piece.
 */
module InstantRate {
  import opened Options
  import opened PromWindows

  /** Times and values of the last two samples, twice the same for a single one. */
  datatype Ends = Ends(ft: int, lt: int, fv: real, lv: real)

  function EndsOf(a: Sample, b: Sample): Ends {
    Ends(a.time, b.time, a.value, b.value)
  }

  function LastTwo(w: seq<Sample>): Ends
    requires w != []
  {
    if |w| == 1 then EndsOf(w[0], w[0]) else EndsOf(w[|w| - 2], w[|w| - 1])
  }

  const NO_ENDS := Ends(0, 0, 0.0, 0.0)

  method Reduce(xs: seq<Sample>, start: int, end: int) returns (e: Ends, isNil: bool)
    requires 0 <= start <= end <= |xs|
    ensures isNil <==> start == end
    ensures !isNil ==> e == LastTwo(xs[start..end])
  {
    if start >= end {
      return NO_ENDS, true;
    }
    if end - start == 1 {
      return EndsOf(xs[end - 1], xs[end - 1]), false;
    }
    return EndsOf(xs[end - 2], xs[end - 1]), false;
  }

  /** The last two samples of two adjacent pieces. */
  function Update(a: Ends, b: Ends): Ends {
    if b.ft < b.lt then b else Ends(a.lt, b.lt, a.lv, b.lv)
  }

  /** Two pieces put together are the whole. */
  lemma UpdateIsWhole(a: seq<Sample>, b: seq<Sample>)
    requires a != [] && b != [] && Sorted(a + b)
    ensures Update(LastTwo(a), LastTwo(b)) == LastTwo(a + b)
  {
    BatchAfter(a, b);
  }

  method CalcLastTwoPoints(pre: seq<Sample>, curr: seq<Sample>) returns (e: Ends)
    ensures |pre| + |curr| >= 2 ==> e == LastTwo(pre + curr)
    ensures |pre| + |curr| < 2 ==> e.ft == e.lt
  {
    if curr == [] {
      if |pre| < 2 {
        return NO_ENDS;
      }
      assert pre + curr == pre;
      return EndsOf(pre[|pre| - 2], pre[|pre| - 1]);
    }
    if |curr| == 1 {
      if |pre| < 1 {
        return NO_ENDS;
      }
      return EndsOf(pre[|pre| - 1], curr[0]);
    }
    return EndsOf(curr[|curr| - 2], curr[|curr| - 1]);
  }

  /** The change between two samples, after a counter reset the later value, and for a
      rate per second. */
  function Change(isRate: bool, before: Sample, after: Sample): real {
    var diff := if isRate && after.value < before.value then after.value else after.value - before.value;
    if isRate && before.time != after.time then diff / ((after.time - before.time) as real / 1_000_000_000.0) else diff
  }

  /** The reference: the change between the last two samples of the window. */
  function IRateOf(isRate: bool): WindowFn<real> {
    (w: seq<Sample>) => if |w| < 2 then None else Some(Change(isRate, w[|w| - 2], w[|w| - 1]))
  }

  /** The value from the last two samples and the number of samples. */
  function IRateMerge(isRate: bool, e: Ends, count: int): Option<real> {
    if e.lt == e.ft || count < 2 then None
    else
      var resultValue := if isRate && e.lv < e.fv then e.lv else e.lv - e.fv;
      Some(if isRate then resultValue / ((e.lt - e.ft) as real / 1_000_000_000.0) else resultValue)
  }

  lemma MergeIsReference(isRate: bool, w: seq<Sample>, e: Ends)
    requires Sorted(w) && (w != [] ==> e == LastTwo(w))
    ensures IRateMerge(isRate, e, |w|) == IRateOf(isRate)(w)
  {
  }

  /** `v` is the change from `x` to `y`: for a rate per second, where a counter that went
      down was reset and started from zero, otherwise the plain difference. */
  ghost predicate IsChange(isRate: bool, x: Sample, y: Sample, v: real) {
    if !isRate then x.value + v == y.value
    else if y.value < x.value then v * (y.time - x.time) as real == y.value * 1_000_000_000.0
    else v * (y.time - x.time) as real == (y.value - x.value) * 1_000_000_000.0
  }

  /** What irate and idelta mean for a window: the change between its last two samples. */
  ghost predicate MeansRate(isRate: bool, w: seq<Sample>, v: real) {
    |w| >= 2 && IsChange(isRate, w[|w| - 2], w[|w| - 1], v)
  }

  ghost function RateMeaning(isRate: bool): (seq<Sample>, real) -> bool {
    (w, v) => MeansRate(isRate, w, v)
  }

  lemma PerSecond(diff: real, nanos: real, v: real)
    requires nanos > 0.0
    ensures nanos / 1_000_000_000.0 != 0.0
    ensures v == diff / (nanos / 1_000_000_000.0) <==> v * nanos == diff * 1_000_000_000.0
  {
    var seconds := nanos / 1_000_000_000.0;
    assert seconds * 1_000_000_000.0 == nanos;
    assert seconds > 0.0;
    var r := diff / seconds;
    assert r * seconds == diff;
    assert r * nanos == r * seconds * 1_000_000_000.0;
    if v * nanos == diff * 1_000_000_000.0 {
      SameFactor(v, r, nanos);
    }
  }

  lemma SameFactor(a: real, b: real, c: real)
    requires c > 0.0 && a * c == b * c
    ensures a == b
  {
    assert (a - b) * c == 0.0;
  }

  /** The reference gives the value irate and idelta mean, and none for fewer than two samples. */
  lemma ChangeMeans(isRate: bool, w: seq<Sample>, v: real)
    requires Sorted(w)
    ensures IRateOf(isRate)(w) == Some(v) <==> MeansRate(isRate, w, v)
  {
    if |w| >= 2 {
      var x, y := w[|w| - 2], w[|w| - 1];
      if isRate {
        PerSecond(if y.value < x.value then y.value else y.value - x.value, (y.time - x.time) as real, v);
      }
    }
  }

  lemma RatesMean(isRate: bool)
    ensures Computes(IRateOf(isRate), RateMeaning(isRate))
  {
    forall w, v | Sorted(w) ensures IRateOf(isRate)(w) == Some(v) <==> RateMeaning(isRate)(w, v) {
      ChangeMeans(isRate, w, v);
    }
  }

  /** So does what is computed from the last two samples of a window. */
  lemma MergeMeans(isRate: bool, w: seq<Sample>, v: real)
    requires Sorted(w) && w != []
    ensures IRateMerge(isRate, LastTwo(w), |w|) == Some(v) <==> MeansRate(isRate, w, v)
  {
    MergeIsReference(isRate, w, LastTwo(w));
    ChangeMeans(isRate, w, v);
  }

  /** A counter never has a negative rate. */
  lemma NeverNegative(w: seq<Sample>, v: real)
    requires Sorted(w) && MeansRate(true, w, v) && forall i :: 0 <= i < |w| ==> w[i].value >= 0.0
    ensures v >= 0.0
  {
    var x, y := w[|w| - 2], w[|w| - 1];
    var t := (y.time - x.time) as real;
    assert t > 0.0 && v * t >= 0.0;
    if v < 0.0 {
      NegativeProduct(v, t);
    }
  }

  lemma NegativeProduct(v: real, t: real)
    requires v < 0.0 && t > 0.0
    ensures v * t < 0.0
  {
  }
}

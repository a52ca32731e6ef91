/**
  The reference meaning of a PromQL range or instant selector: at every step
  take the samples of the window that ends there and apply one function to
  them.  Everything the streaming cursors do is measured against `Naive`.
 */
module PromWindows {
  import opened Multiples
  import opened Options
  import opened PromSteps

  /** One row of a series; `stale` is the staleness marker of Prometheus. */
  datatype Sample = Sample(time: int, value: real, stale: bool)

  /** One row of the result: the step and the value computed there. */
  datatype Point<+V> = Point(ts: int, value: V)

  /** A window function; `None` means that no point is produced. */
  type WindowFn<!V> = seq<Sample> -> Option<V>

  ghost predicate Sorted(xs: seq<Sample>) {
    forall i, j :: 0 <= i < j < |xs| ==> xs[i].time < xs[j].time
  }

  /** The function gives a value for a window exactly if `value` relates the two. */
  ghost predicate Computes<V(!new)>(f: WindowFn<V>, value: (seq<Sample>, V) -> bool) {
    forall w, v :: Sorted(w) ==> (f(w) == Some(v) <==> value(w, v))
  }

  lemma BatchAfter(a: seq<Sample>, b: seq<Sample>)
    requires Sorted(a + b)
    ensures Sorted(a) && Sorted(b)
    ensures forall i, k :: 0 <= i < |a| && 0 <= k < |b| ==> a[i].time < b[k].time
    ensures forall k :: 0 <= k < |b| ==> b[k].time <= b[|b| - 1].time
  {
    var all := a + b;
    assert forall k :: 0 <= k < |b| ==> b[k] == all[|a| + k];
    assert forall i :: 0 <= i < |a| ==> a[i] == all[i];
  }

  /** The samples with `lo <= time <= hi`, in order. */
  function InWindow(xs: seq<Sample>, lo: int, hi: int): seq<Sample> {
    if xs == [] then []
    else if lo <= xs[0].time <= hi then [xs[0]] + InWindow(xs[1..], lo, hi)
    else InWindow(xs[1..], lo, hi)
  }

  /** The window of the query that ends at step `s`. */
  function Window(q: Query, xs: seq<Sample>, s: int): seq<Sample> {
    InWindow(xs, s - q.range, s)
  }

  function PointAt<V>(q: Query, f: WindowFn<V>, xs: seq<Sample>, s: int): seq<Point<V>> {
    match f(Window(q, xs, s))
    case None => []
    case Some(v) => [Point(s, v)]
  }

  /** The reference result over the steps `from, from + step, ...` up to `till`. */
  function Naive<V>(q: Query, f: WindowFn<V>, xs: seq<Sample>, from: int, till: int): seq<Point<V>>
    decreases till - from
  {
    if from > till then [] else PointAt(q, f, xs, from) + Naive(q, f, xs, from + q.step, till)
  }

  /** `i` splits the sorted sequence into the samples before time `x` and the rest. */
  ghost predicate CutsAt(xs: seq<Sample>, x: int, i: int) {
    && 0 <= i <= |xs|
    && (forall k :: 0 <= k < i ==> xs[k].time < x)
    && (forall k :: i <= k < |xs| ==> xs[k].time >= x)
  }

  /** The samples from time `x` on, of a sorted sequence. */
  function From(xs: seq<Sample>, x: int): seq<Sample> {
    if xs == [] || xs[0].time >= x then xs else From(xs[1..], x)
  }

  lemma {:induction false} FromCut(xs: seq<Sample>, x: int, i: int)
    requires CutsAt(xs, x, i)
    ensures From(xs, x) == xs[i..]
  {
    if i > 0 {
      assert CutsAt(xs[1..], x, i - 1);
      FromCut(xs[1..], x, i - 1);
    }
  }

  lemma {:induction false} FromSkip(a: seq<Sample>, b: seq<Sample>, x: int)
    requires forall k :: 0 <= k < |a| ==> a[k].time < x
    ensures From(a + b, x) == From(b, x)
  {
    if a == [] {
      assert a + b == b;
    } else {
      assert (a + b)[1..] == a[1..] + b;
      FromSkip(a[1..], b, x);
    }
  }

  lemma {:induction false} FromHasCut(xs: seq<Sample>, x: int) returns (i: nat)
    requires Sorted(xs)
    ensures CutsAt(xs, x, i) && From(xs, x) == xs[i..]
  {
    if xs == [] || xs[0].time >= x {
      i := 0;
    } else {
      var j := FromHasCut(xs[1..], x);
      i := j + 1;
    }
  }

  lemma {:induction false} WindowConcat(a: seq<Sample>, b: seq<Sample>, lo: int, hi: int)
    ensures InWindow(a + b, lo, hi) == InWindow(a, lo, hi) + InWindow(b, lo, hi)
  {
    if a == [] {
      assert a + b == b;
    } else {
      assert (a + b)[1..] == a[1..] + b;
      WindowConcat(a[1..], b, lo, hi);
    }
  }

  lemma {:induction false} WindowNone(xs: seq<Sample>, lo: int, hi: int)
    requires forall k :: 0 <= k < |xs| ==> !(lo <= xs[k].time <= hi)
    ensures InWindow(xs, lo, hi) == []
  {
    if xs != [] {
      WindowNone(xs[1..], lo, hi);
    }
  }

  lemma {:induction false} WindowAll(xs: seq<Sample>, lo: int, hi: int)
    requires forall k :: 0 <= k < |xs| ==> lo <= xs[k].time <= hi
    ensures InWindow(xs, lo, hi) == xs
  {
    if xs != [] {
      WindowAll(xs[1..], lo, hi);
    }
  }

  lemma CutsOrdered(xs: seq<Sample>, x: int, y: int, i: int, j: int)
    requires CutsAt(xs, x, i) && CutsAt(xs, y, j) && x <= y
    ensures i <= j
  {
    if i > 0 {
      assert xs[i - 1].time < x;
    }
  }

  /** On sorted samples a window is the slice between two cut positions. */
  lemma WindowSlice(xs: seq<Sample>, lo: int, hi: int, i: int, j: int)
    requires CutsAt(xs, lo, i) && CutsAt(xs, hi + 1, j) && i <= j
    ensures InWindow(xs, lo, hi) == xs[i..j]
  {
    hide InWindow;
    WindowNone(xs[..i], lo, hi);
    WindowAll(xs[i..j], lo, hi);
    WindowNone(xs[j..], lo, hi);
    WindowConcat(xs[..i], xs[i..j], lo, hi);
    WindowConcat(xs[..i] + xs[i..j], xs[j..], lo, hi);
    assert xs == xs[..i] + xs[i..j] + xs[j..];
  }

  lemma WindowSorted(xs: seq<Sample>, lo: int, hi: int)
    requires Sorted(xs) && lo <= hi + 1
    ensures Sorted(InWindow(xs, lo, hi))
  {
    hide InWindow;
    var i := FromHasCut(xs, lo);
    var j := FromHasCut(xs, hi + 1);
    CutsOrdered(xs, lo, hi + 1, i, j);
    WindowSlice(xs, lo, hi, i, j);
  }

  /** Samples after the end of a window do not matter. */
  lemma WindowPrefix(a: seq<Sample>, b: seq<Sample>, lo: int, hi: int)
    requires forall k :: 0 <= k < |b| ==> hi < b[k].time
    ensures InWindow(a + b, lo, hi) == InWindow(a, lo, hi)
  {
    WindowNone(b, lo, hi);
    WindowConcat(a, b, lo, hi);
  }

  /** A sample inside the bounds is in the window. */
  lemma {:induction false} WindowHas(xs: seq<Sample>, lo: int, hi: int, k: int)
    requires 0 <= k < |xs| && lo <= xs[k].time <= hi
    ensures InWindow(xs, lo, hi) != []
  {
    if !(lo <= xs[0].time <= hi) {
      WindowHas(xs[1..], lo, hi, k - 1);
    }
  }

  lemma NaiveEmpty<V>(q: Query, f: WindowFn<V>, xs: seq<Sample>, from: int, till: int)
    requires from > till
    ensures Naive(q, f, xs, from, till) == []
  {
  }

  /** The reference result can be computed piece by piece. */
  lemma {:induction false} NaiveSplit<V>(q: Query, f: WindowFn<V>, xs: seq<Sample>, a: int, b: int, c: int)
    requires a <= b <= c + q.step && Aligned(b - a, q.step)
    ensures Naive(q, f, xs, a, c) == Naive(q, f, xs, a, b - q.step) + Naive(q, f, xs, b, c)
    decreases b - a
  {
    if a < b {
      assert b - (a + q.step) == b - a - q.step;
      NaiveSplit(q, f, xs, a + q.step, b, c);
    }
  }

  /** The reference result grows by one step at its end. */
  lemma NaiveSnoc<V>(q: Query, f: WindowFn<V>, xs: seq<Sample>, a: int, b: int)
    requires a <= b && Aligned(b - a, q.step)
    ensures Naive(q, f, xs, a, b) == Naive(q, f, xs, a, b - q.step) + PointAt(q, f, xs, b)
  {
    NaiveSplit(q, f, xs, a, b, b);
    assert Naive(q, f, xs, b, b) == PointAt(q, f, xs, b) + Naive(q, f, xs, b + q.step, b);
  }

  /** Nothing lies between the last step walked and the bound of the walk. */
  lemma NaiveTop<V>(q: Query, f: WindowFn<V>, xs: seq<Sample>, a: int, b: int, till: int)
    requires a <= b && Aligned(b - a, q.step) && till < b && (b == a || b - q.step <= till)
    ensures Naive(q, f, xs, a, till) == Naive(q, f, xs, a, b - q.step)
  {
    if b - q.step <= till {
      NaiveSplit(q, f, xs, a, b, till);
    }
  }

  /** The reference result depends on the windows only. */
  lemma {:induction false} NaiveCong<V>(q: Query, f: WindowFn<V>, xs: seq<Sample>, ys: seq<Sample>, from: int,
                                        till: int)
    requires forall s :: from <= s <= till ==> Window(q, xs, s) == Window(q, ys, s)
    ensures Naive(q, f, xs, from, till) == Naive(q, f, ys, from, till)
    decreases till - from
  {
    if from <= till {
      assert Window(q, xs, from) == Window(q, ys, from);
      NaiveCong(q, f, xs, ys, from + q.step, till);
    }
  }

  lemma {:induction false} NaiveCongFn<V>(q: Query, f: WindowFn<V>, xs: seq<Sample>, ys: seq<Sample>, from: int,
                                          till: int)
    requires forall s :: from <= s <= till ==> f(Window(q, xs, s)) == f(Window(q, ys, s))
    ensures Naive(q, f, xs, from, till) == Naive(q, f, ys, from, till)
    decreases till - from
  {
    hide InWindow;
    if from <= till {
      assert f(Window(q, xs, from)) == f(Window(q, ys, from));
      NaiveCongFn(q, f, xs, ys, from + q.step, till);
    }
  }

  /** Steps before the next batch are not changed by it. */
  lemma NaivePrefix<V>(q: Query, f: WindowFn<V>, a: seq<Sample>, b: seq<Sample>, from: int, till: int)
    requires Sorted(b) && (b == [] || till < b[0].time)
    ensures Naive(q, f, a + b, from, till) == Naive(q, f, a, from, till)
  {
    forall s | from <= s <= till ensures Window(q, a + b, s) == Window(q, a, s) {
      WindowPrefix(a, b, s - q.range, s);
    }
    NaiveCong(q, f, a + b, a, from, till);
  }

  lemma {:induction false} NaiveSilent<V>(q: Query, f: WindowFn<V>, xs: seq<Sample>, from: int, till: int)
    requires forall s :: from <= s <= till ==> f(Window(q, xs, s)) == None
    ensures Naive(q, f, xs, from, till) == []
    decreases till - from
  {
    if from <= till {
      assert f(Window(q, xs, from)) == None;
      NaiveSilent(q, f, xs, from + q.step, till);
    }
  }

  lemma NaiveNone<V>(q: Query, f: WindowFn<V>, xs: seq<Sample>, from: int, till: int)
    requires forall s :: from <= s <= till ==> Window(q, xs, s) == []
    requires f([]) == None
    ensures Naive(q, f, xs, from, till) == []
  {
    NaiveSilent(q, f, xs, from, till);
  }

  lemma {:induction false} NaiveBounds<V>(q: Query, f: WindowFn<V>, xs: seq<Sample>, from: int, till: int)
    ensures forall i :: 0 <= i < |Naive(q, f, xs, from, till)| ==> from <= Naive(q, f, xs, from, till)[i].ts <= till
    decreases till - from
  {
    if from <= till {
      NaiveBounds(q, f, xs, from + q.step, till);
    }
  }

  /** There is a point for step `s`. */
  ghost predicate Given<V>(out: seq<Point<V>>, s: int) {
    exists i :: 0 <= i < |out| && out[i].ts == s
  }

  lemma GivenStays<V>(out: seq<Point<V>>, points: seq<Point<V>>, s: int)
    requires AllAfter(points, s)
    ensures Given(out + points, s) <==> Given(out, s)
  {
    if Given(out, s) {
      var i :| 0 <= i < |out| && out[i].ts == s;
      assert (out + points)[i].ts == s;
    }
  }

  lemma NotGiven<V>(out: seq<Point<V>>, points: seq<Point<V>>, s: int)
    requires AllBefore(out, s) && (AllBefore(points, s) || AllAfter(points, s))
    ensures !Given(out + points, s)
  {
  }

  ghost predicate AllBefore<V>(out: seq<Point<V>>, t: int) {
    forall i :: 0 <= i < |out| ==> out[i].ts < t
  }

  ghost predicate AllAfter<V>(out: seq<Point<V>>, t: int) {
    forall i :: 0 <= i < |out| ==> t < out[i].ts
  }

  lemma NaiveSpan<V>(q: Query, f: WindowFn<V>, xs: seq<Sample>, from: int, till: int, t: int)
    ensures till < t ==> AllBefore(Naive(q, f, xs, from, till), t)
    ensures t < from ==> AllAfter(Naive(q, f, xs, from, till), t)
  {
    hide Naive;
    NaiveBounds(q, f, xs, from, till);
  }

  /** A step has a point exactly if the function gives one for its window. */
  lemma {:induction false} NaiveAt<V>(q: Query, f: WindowFn<V>, xs: seq<Sample>, from: int, till: int, s: int)
    requires from <= s <= till && Aligned(s - from, q.step)
    ensures Given(Naive(q, f, xs, from, till), s) <==> f(Window(q, xs, s)).Some?
  {
    hide Naive, InWindow, Given;
    NaiveSplit(q, f, xs, from, s, till);
    NaiveFirst(q, f, xs, s, till);
    var a, p, b := Naive(q, f, xs, from, s - q.step), PointAt(q, f, xs, s), Naive(q, f, xs, s + q.step, till);
    NaiveSpan(q, f, xs, from, s - q.step, s);
    NaiveSpan(q, f, xs, s + q.step, till, s);
    assert Naive(q, f, xs, from, till) == a + p + b;
    GivenStays(a + p, b, s);
    if p == [] {
      NotGiven(a, p, s);
    } else {
      GivenLast(a, p[0]);
      assert a + p == a + [p[0]];
    }
  }

  lemma NaiveFirst<V>(q: Query, f: WindowFn<V>, xs: seq<Sample>, from: int, till: int)
    requires from <= till
    ensures Naive(q, f, xs, from, till) == PointAt(q, f, xs, from) + Naive(q, f, xs, from + q.step, till)
  {
  }

  lemma GivenLast<V>(out: seq<Point<V>>, p: Point<V>)
    ensures Given(out + [p], p.ts)
  {
    assert (out + [p])[|out|] == p;
  }
}

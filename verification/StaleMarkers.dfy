/**
  Staleness markers in range queries. They are filtered out of a record after the cursor
  has looked at the next record to find out whether the last step goes on, so a marker
  where two records meet can mislead the look.
 */
module StaleMarkers {
  import opened Options
  import opened PromSteps
  import opened PromWindows
  import opened PromStreaming
  import opened VectorCursor

  /** The rows that are no staleness markers. */
  function NotStale(rec: Batch): Batch {
    if rec == [] then []
    else
      var n := |rec| - 1;
      NotStale(rec[..n]) + (if rec[n].stale then [] else [rec[n]])
  }

  lemma {:induction false} NotStaleConcat(a: Batch, b: Batch)
    ensures NotStale(a + b) == NotStale(a) + NotStale(b)
  {
    if b == [] {
      assert a + b == a;
    } else {
      var n := |b| - 1;
      NotStaleConcat(a, b[..n]);
      var all := a + b;
      assert all[..|all| - 1] == a + b[..n] && all[|all| - 1] == b[n];
    }
  }

  lemma {:induction false} NothingStale(rec: Batch)
    requires forall k :: 0 <= k < |rec| ==> !rec[k].stale
    ensures NotStale(rec) == rec
  {
    if rec != [] {
      NothingStale(rec[..|rec| - 1]);
    }
  }

  lemma FreshStretch(rec: Batch, i: nat, j: nat)
    requires i <= j <= |rec| && forall k :: i <= k < j ==> !rec[k].stale
    ensures NotStale(rec[..j]) == NotStale(rec[..i]) + rec[i..j]
  {
    hide NotStale;
    NothingStale(rec[i..j]);
    NotStaleConcat(rec[..i], rec[i..j]);
    assert rec[..i] + rec[i..j] == rec[..j];
  }

  lemma StaleRow(rec: Batch, j: nat)
    requires j < |rec| && rec[j].stale
    ensures NotStale(rec[..j + 1]) == NotStale(rec[..j])
  {
    assert rec[..j + 1][..j] == rec[..j];
  }

  /** Copies the stretches between staleness markers; a record without any is handed on. */
  method FilterRangeNANPoint(rec: Batch) returns (out: Batch)
    ensures out == NotStale(rec)
  {
    hide NotStale;
    out := [];
    FreshStretch(rec, 0, 0);
    NothingStale(rec[..0]);
    var startIndex, endIndex := 0, 0;
    while endIndex < |rec|
      invariant 0 <= startIndex <= endIndex <= |rec|
      invariant forall k :: startIndex <= k < endIndex ==> !rec[k].stale
      invariant startIndex == 0 ==> out == []
      invariant out == NotStale(rec[..startIndex])
    {
      if rec[endIndex].stale {
        FreshStretch(rec, startIndex, endIndex);
        StaleRow(rec, endIndex);
        out := out + rec[startIndex..endIndex];
        endIndex := endIndex + 1;
        startIndex := endIndex;
        continue;
      }
      endIndex := endIndex + 1;
    }
    FreshStretch(rec, startIndex, endIndex);
    assert rec[..endIndex] == rec;
    if startIndex == 0 {
      assert rec[0..endIndex] == rec;
      return rec;
    }
    out := out + rec[startIndex..endIndex];
  }

  lemma {:induction false} NotStaleIn(rec: Batch)
    ensures forall k :: 0 <= k < |NotStale(rec)| ==> NotStale(rec)[k] in rec
  {
    if rec != [] {
      var n := |rec| - 1;
      NotStaleIn(rec[..n]);
      forall k | 0 <= k < |NotStale(rec)| ensures NotStale(rec)[k] in rec {
        if k < |NotStale(rec[..n])| {
          assert NotStale(rec[..n])[k] in rec[..n];
        }
      }
    }
  }

  /** The batches the reducers see. */
  function Filtered(records: seq<Batch>): seq<Batch> {
    seq(|records|, k requires 0 <= k < |records| => NotStale(records[k]))
  }

  /** Whether a step goes on in the next record is the same for the rows as they were
      read and for those that are left. */
  ghost predicate SeenThrough(q: Query, a: Batch, b: Batch) {
    NotStale(a) != [] && NotStale(b) != [] ==>
      && a != [] && b != []
      && (LastStep(q, a) == FirstStep(q, b) <==> LastStep(q, NotStale(a)) == FirstStep(q, NotStale(b)))
  }

  ghost predicate LooksThrough(q: Query, records: seq<Batch>) {
    forall k :: 0 <= k < |records| - 1 ==> SeenThrough(q, records[k], records[k + 1])
  }

  /** It is if no staleness marker is where two records meet. */
  lemma FreshMeeting(q: Query, a: Batch, b: Batch)
    requires a != [] && b != [] && !a[|a| - 1].stale && !b[0].stale
    ensures SeenThrough(q, a, b)
  {
    hide NotStale, StepOf;
    LastStays(a);
    FirstStays(b);
  }

  lemma LastStays(rec: Batch)
    requires rec != [] && !rec[|rec| - 1].stale
    ensures NotStale(rec) != [] && NotStale(rec)[|NotStale(rec)| - 1] == rec[|rec| - 1]
  {
  }

  lemma FirstStays(rec: Batch)
    requires rec != [] && !rec[0].stale
    ensures NotStale(rec) != [] && NotStale(rec)[0] == rec[0]
  {
    hide NotStale;
    FreshStretch(rec, 0, 1);
    NothingStale(rec[..0]);
    NotStaleConcat(rec[..1], rec[1..]);
    assert rec[..1] + rec[1..] == rec;
  }

  /** Records of one series in time order, each with a row that is no marker. */
  ghost predicate ValidRecords(q: Query, records: seq<Batch>) {
    ValidSeries(q, Filtered(records)) && Sorted(Flat(records))
  }

  /** What the look at the next record says, at the rows as they were read. */
  ghost predicate SeenOn(q: Query, records: seq<Batch>, k: nat)
    requires k < |records|
  {
    k + 1 < |records| && records[k] != [] && records[k + 1] != []
    && LastStep(q, records[k]) == FirstStep(q, records[k + 1])
  }

  /** The look says that the last step of a batch goes on, but it does not. */
  ghost predicate Misled(q: Query, records: seq<Batch>, k: nat)
    requires ValidSeries(q, Filtered(records)) && k < |records|
  {
    SeenOn(q, records, k) && !Continues(q, Filtered(records), k)
  }

  /** The look errs one way only. */
  lemma LookErrs(q: Query, records: seq<Batch>, k: nat)
    requires ValidRecords(q, records) && k < |records|
    ensures Continues(q, Filtered(records), k) ==> SeenOn(q, records, k)
    ensures var bs := Filtered(records);
            Misled(q, records, k) ==> k + 1 < |bs| && LastStep(q, bs[k]) < FirstStep(q, bs[k + 1])
  {
    hide NotStale, StepOf, ValidSamples, Flat;
    var bs: seq<Batch> := Filtered(records);
    if k + 1 < |records| {
      assert bs[k] != [] && bs[k + 1] != [];
      TwoRecords(records, k);
      NotStaleBetween(records[k], records[k + 1]);
      var a, b := records[k], records[k + 1];
      StepMonotone(q, bs[k][|bs[k]| - 1].time, a[|a| - 1].time);
      StepMonotone(q, a[|a| - 1].time, b[0].time);
      StepMonotone(q, b[0].time, bs[k + 1][0].time);
    }
  }

  lemma TwoRecords(records: seq<Batch>, k: nat)
    requires k + 1 < |records| && Sorted(Flat(records))
    ensures Sorted(records[k] + records[k + 1])
  {
    hide Flat;
    FlatStep(records, k);
    FlatStep(records, k + 1);
    FlatPrefix(records, k + 2);
    var pre, all := Flat(records[..k]), Flat(records[..k + 2]);
    assert Sorted(all) && all == pre + (records[k] + records[k + 1]);
    BatchAfter(pre, records[k] + records[k + 1]);
  }

  /** The rows left of two records are between the outer ends of the records. */
  lemma NotStaleBetween(a: Batch, b: Batch)
    requires Sorted(a + b) && NotStale(a) != [] && NotStale(b) != []
    ensures a != [] && b != []
    ensures NotStale(a)[|NotStale(a)| - 1].time <= a[|a| - 1].time < b[0].time <= NotStale(b)[0].time
  {
    NotStaleIn(a);
    NotStaleIn(b);
    hide NotStale;
    BatchAfter(a, b);
    var x, y := NotStale(a)[|NotStale(a)| - 1], NotStale(b)[0];
    assert x in a && y in b;
  }

  /** The look is right everywhere exactly if it misleads nowhere. */
  lemma RightLook(q: Query, records: seq<Batch>)
    requires ValidRecords(q, records)
    ensures LooksThrough(q, records) <==> forall k :: 0 <= k < |records| ==> !Misled(q, records, k)
  {
    hide NotStale, StepOf, ValidSamples, Flat, Sorted;
    forall k | 0 <= k < |records| - 1 ensures SeenThrough(q, records[k], records[k + 1]) <==> !Misled(q, records, k) {
      assert Filtered(records)[k] != [] && Filtered(records)[k + 1] != [];
      LookErrs(q, records, k);
      TwoRecords(records, k);
      NotStaleBetween(records[k], records[k + 1]);
    }
  }

  /** What the cursor does with a record before the reducer gets it. */
  method PrepareRecord(q: Query, records: seq<Batch>, k: nat)
    returns (b: Batch, sameWindow: bool, firstStep: int, index: seq<int>, ghost n: nat)
    requires ValidRecords(q, records) && k < |records| && ValidSamples(q, Filtered(records)[k])
    ensures b == Filtered(records)[k] && sameWindow == SeenOn(q, records, k)
    ensures k + 1 == |records| ==> !sameWindow
    ensures firstStep == FirstStep(q, b) && IsIndex(q, b, index, n)
  {
    hide NotStale, StepOf, ValidSamples, IsIndex;
    sameWindow := IsSameWindow(q, records[k], if k + 1 < |records| then Some(records[k + 1]) else None);
    if k + 1 < |records| {
      assert Filtered(records)[k] != [] && Filtered(records)[k + 1] != [];
      TwoRecords(records, k);
      NotStaleBetween(records[k], records[k + 1]);
    }
    b := FilterRangeNANPoint(records[k]);
    assert b == Filtered(records)[k];
    firstStep, index, n := GetIntervalIndex(q, b);
  }

  /** After `k` batches: step `s` is due and has no point, or has one and is not due, and
      all that follows is after it. */
  ghost predicate Amiss<V>(q: Query, f: WindowFn<V>, bs: seq<Batch>, k: nat, s: int, out: seq<Point<V>>)
    requires ValidSeries(q, bs) && 0 < k <= |bs|
  {
    && q.OnGrid(s) && s <= LastStep(q, bs[k - 1]) && (k < |bs| ==> s < FirstStep(q, bs[k]))
    && Given(out, s) != f(Window(q, Flat(bs), s)).Some?
  }

  lemma AmissStays<V>(q: Query, f: WindowFn<V>, bs: seq<Batch>, k: nat, s: int, out: seq<Point<V>>,
                      points: seq<Point<V>>)
    requires ValidSeries(q, bs) && 0 < k < |bs| && Amiss(q, f, bs, k, s, out) && AllAfter(points, s)
    ensures Amiss(q, f, bs, k + 1, s, out + points)
  {
    hide StepOf, Flat, ValidSamples, Window;
    StepsRise(q, bs, k, k);
    PrefixValid(q, bs, k);
    StepsMeet(q, Flat(bs[..k]), bs[k]);
    if k + 1 < |bs| {
      StepsRise(q, bs, k, k + 1);
    }
    GivenStays(out, points, s);
  }

  lemma AmissAfter<V>(q: Query, f: WindowFn<V>, bs: seq<Batch>, k: nat, s: int, out: seq<Point<V>>)
    requires ValidSeries(q, bs) && 0 < k < |bs| && Amiss(q, f, bs, k, s, out)
    ensures s < FirstStep(q, bs[k]) && Flat(bs[..k]) != [] && s <= LastStep(q, Flat(bs[..k]))
  {
    hide StepOf, Flat, ValidSamples, Window;
    PrefixValid(q, bs, k);
  }

  lemma AmissIsWrong<V>(q: Query, f: WindowFn<V>, bs: seq<Batch>, s: int, out: seq<Point<V>>)
    requires ValidSeries(q, bs) && bs != [] && Amiss(q, f, bs, |bs|, s, out)
    ensures out != Expected(q, f, bs)
  {
    hide StepOf, Flat, ValidSamples, Window, Expected;
    WrongStep(q, f, bs, s, out);
  }

  /** The last step of a batch is lost if the look wrongly says that it goes on. */
  lemma MisledLoses<V>(q: Query, f: WindowFn<V>, records: seq<Batch>, k: nat, out: seq<Point<V>>, points: seq<Point<V>>)
    requires ValidRecords(q, records) && k < |records| && Misled(q, records, k)
    requires var bs := Filtered(records);
             var s := LastStep(q, bs[k]);
             AllBefore(out, s) && AllBefore(points, s) && f(Window(q, Flat(bs[..k + 1]), s)).Some?
    ensures Amiss(q, f, Filtered(records), k + 1, LastStep(q, Filtered(records)[k]), out + points)
  {
    hide StepOf, Flat, ValidSamples, Window, NotStale, Sorted;
    LookErrs(q, records, k);
    StepIsOver(q, Filtered(records), k);
    NotGiven(out, points, LastStep(q, Filtered(records)[k]));
  }

  /** The look was right for the records before record `k`. */
  ghost predicate RightBefore(q: Query, records: seq<Batch>, k: nat)
    requires ValidSeries(q, Filtered(records)) && k <= |records|
  {
    forall j :: 0 <= j < k ==> !Misled(q, records, j)
  }

  /** A batch that begins in the last step of the history was seen to do so. */
  lemma MeetsIsSeen(q: Query, records: seq<Batch>, k: nat)
    requires ValidRecords(q, records) && k < |records|
    ensures Meets(q, Flat(Filtered(records)[..k]), Filtered(records)[k]) ==> k > 0 && SeenOn(q, records, k - 1)
  {
    hide StepOf, ValidSamples, NotStale, Sorted;
    var bs: seq<Batch> := Filtered(records);
    PrefixValid(q, bs, k);
    NothingFlat(bs);
    if k > 0 {
      LookErrs(q, records, k - 1);
    }
  }

  lemma RightAgain(q: Query, records: seq<Batch>, k: nat)
    requires ValidSeries(q, Filtered(records)) && k < |records| && RightBefore(q, records, k) && !Misled(q, records, k)
    ensures RightBefore(q, records, k + 1)
  {
    hide Misled;
  }
}

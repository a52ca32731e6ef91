/**
  A parallel scan: every tag set is cut into sub-cursors that walk its series with a
  fixed stride, and the sub-cursors are dealt to the group cursors in turn.
 */
module ScanDistribution {
  import opened Multiples
  import opened Options

  /** A sub-cursor over series `start`, `start + step`, ... of a tag set. */
  datatype Item = Item(tagSet: nat, start: nat, step: nat)

  function SubTagSetN(parallelism: nat, sidCnt: nat): nat {
    if sidCnt < parallelism then sidCnt else parallelism
  }

  /** A tag set is walked by as many sub-cursors as the parallelism and its series allow. */
  lemma AsParallelAsPossible(parallelism: nat, sidCnt: nat)
    ensures var n := SubTagSetN(parallelism, sidCnt);
            n <= parallelism && n <= sidCnt && (n == parallelism || n == sidCnt)
  {
  }

  function ItemsOf(tagSet: nat, step: nat): seq<Item> {
    seq(step, s requires 0 <= s < step => Item(tagSet, s, step))
  }

  /** The sub-cursors of all tag sets. */
  function AllItems(sidCnts: seq<nat>, parallelism: nat): seq<Item> {
    if sidCnts == [] then []
    else
      var i := |sidCnts| - 1;
      AllItems(sidCnts[..i], parallelism) + ItemsOf(i, SubTagSetN(parallelism, sidCnts[i]))
  }

  /** The share of group `g` if items are dealt in turn. */
  function Deal(items: seq<Item>, parallelism: nat, g: nat): seq<Item>
    requires parallelism > 0
  {
    if items == [] then []
    else
      var n := |items| - 1;
      Deal(items[..n], parallelism, g) + (if n % parallelism == g then [items[n]] else [])
  }

  lemma NextTurn(n: nat, p: nat)
    requires p > 0
    ensures (n + 1) % p == (if n % p + 1 == p then 0 else n % p + 1)
    ensures (n + 1) / p == (if n % p + 1 == p then n / p + 1 else n / p)
    ensures 0 <= n % p < p
  {
    var q, r := n / p, n % p;
    assert n == p * q + r;
    if r + 1 == p {
      assert n + 1 == p * (q + 1);
      QuotRem(n + 1, p, q + 1, 0);
    } else {
      QuotRem(n + 1, p, q, r + 1);
    }
  }

  lemma {:induction false} TurnPlus(n: nat, s: nat, p: nat)
    requires p > 0
    ensures (n % p + s) % p == (n + s) % p
  {
    if s == 0 {
      QuotRem(n % p, p, 0, n % p);
    } else {
      TurnPlus(n, s - 1, p);
      NextTurn(n % p + s - 1, p);
      NextTurn(n + s - 1, p);
    }
  }

  /** The work items of one tag set are less than `p` places apart. */
  lemma {:induction false} TagSetsApart(sidCnts: seq<nat>, p: nat, a: nat, b: nat)
    requires a < b < |AllItems(sidCnts, p)| && AllItems(sidCnts, p)[a].tagSet == AllItems(sidCnts, p)[b].tagSet
    ensures b - a < p
  {
    var n := |sidCnts| - 1;
    var init := AllItems(sidCnts[..n], p);
    TagSetsSoFar(sidCnts[..n], p);
    if b < |init| {
      TagSetsApart(sidCnts[..n], p, a, b);
    }
  }

  lemma {:induction false} TagSetsSoFar(sidCnts: seq<nat>, p: nat)
    ensures forall x :: x in AllItems(sidCnts, p) ==> x.tagSet < |sidCnts|
  {
    if sidCnts != [] {
      TagSetsSoFar(sidCnts[..|sidCnts| - 1], p);
    }
  }

  /** The work items of one tag set go to different groups, so they can run in parallel. */
  lemma DifferentGroups(sidCnts: seq<nat>, p: nat, a: nat, b: nat)
    requires a < b < |AllItems(sidCnts, p)| && AllItems(sidCnts, p)[a].tagSet == AllItems(sidCnts, p)[b].tagSet && p > 0
    ensures a % p != b % p
  {
    TagSetsApart(sidCnts, p, a, b);
    TurnsApart(a, b, p);
  }

  lemma TurnsApart(a: nat, b: nat, p: nat)
    requires a < b < a + p
    ensures a % p != b % p
  {
    var q := b / p - a / p;
    assert q * p == b - a - (b % p - a % p);
    if q >= 1 {
      MulAtLeast(q, p);
    } else if q <= -1 {
      MulAtLeast(-q, p);
    }
  }

  lemma DealSnoc(items: seq<Item>, x: Item, p: nat, g: nat)
    requires p > 0
    ensures Deal(items + [x], p, g) == Deal(items, p, g) + (if |items| % p == g then [x] else [])
  {
    assert (items + [x])[..|items|] == items;
  }

  /** Groups get the same number of work items, but for one. */
  lemma {:induction false} DealBalanced(items: seq<Item>, p: nat, g: nat)
    requires g < p
    ensures |Deal(items, p, g)| == |items| / p + (if g < |items| % p then 1 else 0)
  {
    if items == [] {
      QuotRem(0, p, 0, 0);
    } else {
      DealBalanced(items[..|items| - 1], p, g);
      NextTurn(|items| - 1, p);
    }
  }

  /** Every work item is in exactly one place: item `k` is number `k / p` of group `k % p`. */
  lemma {:induction false} DealPlace(items: seq<Item>, p: nat, k: nat)
    requires p > 0 && k < |items|
    ensures k / p < |Deal(items, p, k % p)| && Deal(items, p, k % p)[k / p] == items[k]
  {
    var n := |items| - 1;
    if k < n {
      DealPlace(items[..n], p, k);
    } else {
      NextTurn(k, p);
      DealBalanced(items[..n], p, k % p);
    }
  }

  method CreateGroupSubCursor(sidCnts: seq<nat>, parallelism: nat) returns (groups: seq<seq<Item>>)
    requires parallelism > 0
    ensures |groups| == parallelism
    ensures forall g :: 0 <= g < parallelism ==> groups[g] == Deal(AllItems(sidCnts, parallelism), parallelism, g)
  {
    hide Deal, AllItems, ItemsOf;
    groups := seq(parallelism, _ => []);
    var startGroupIdx := 0;
    ghost var items: seq<Item> := [];
    NoItems(parallelism);
    assert sidCnts[..0] == [];
    for i := 0 to |sidCnts|
      invariant |groups| == parallelism && items == AllItems(sidCnts[..i], parallelism)
      invariant startGroupIdx % parallelism == |items| % parallelism && startGroupIdx >= 0
      invariant forall g :: 0 <= g < parallelism ==> groups[g] == Deal(items, parallelism, g)
    {
      var subTagSetN := SubTagSetN(parallelism, sidCnts[i]);
      startGroupIdx := startGroupIdx % parallelism;
      ghost var before := items;
      groups := CreateTagSet(groups, i, startGroupIdx, subTagSetN, before);
      items := before + ItemsOf(i, subTagSetN);
      AllItemsNext(sidCnts, parallelism, i);
      TurnPlus(|before|, subTagSetN, parallelism);
      startGroupIdx := startGroupIdx + subTagSetN;
    }
    assert sidCnts[..|sidCnts|] == sidCnts;
  }

  lemma NoItems(p: nat)
    requires p > 0
    ensures AllItems([], p) == [] && forall g :: Deal([], p, g) == []
  {
  }

  lemma AllItemsNext(sidCnts: seq<nat>, p: nat, i: nat)
    requires i < |sidCnts|
    ensures AllItems(sidCnts[..i + 1], p) == AllItems(sidCnts[..i], p) + ItemsOf(i, SubTagSetN(p, sidCnts[i]))
    ensures |ItemsOf(i, SubTagSetN(p, sidCnts[i]))| == SubTagSetN(p, sidCnts[i])
  {
    assert sidCnts[..i + 1][..i] == sidCnts[..i];
  }

  /** The work items of one tag set. */
  method CreateTagSet(groups0: seq<seq<Item>>, tagSet: nat, startGroupIdx: nat, subTagSetN: nat,
                      ghost before: seq<Item>)
    returns (groups: seq<seq<Item>>)
    requires |groups0| > 0 && startGroupIdx == |before| % |groups0| && subTagSetN <= |groups0|
    requires forall g :: 0 <= g < |groups0| ==> groups0[g] == Deal(before, |groups0|, g)
    ensures |groups| == |groups0|
    ensures forall g :: 0 <= g < |groups0| ==> groups[g] == Deal(before + ItemsOf(tagSet, subTagSetN), |groups0|, g)
  {
    hide Deal;
    groups := groups0;
    var p := |groups0|;
    ghost var items := ItemsOf(tagSet, subTagSetN);
    assert before + items[..0] == before;
    for start := 0 to subTagSetN
      invariant |groups| == p
      invariant forall g :: 0 <= g < p ==> groups[g] == Deal(before + items[..start], p, g)
    {
      TurnPlus(|before|, start, p);
      NextTurn(startGroupIdx + start, p);
      var groupIdx := (startGroupIdx + start) % p;
      forall g | 0 <= g < p
        ensures Deal(before + items[..start + 1], p, g)
             == Deal(before + items[..start], p, g) + (if g == groupIdx then [items[start]] else [])
      {
        DealSnoc(before + items[..start], items[start], p, g);
        assert before + items[..start] + [items[start]] == before + items[..start + 1];
      }
      groups := groups[groupIdx := groups[groupIdx] + [Item(tagSet, start, subTagSetN)]];
    }
    assert items[..subTagSetN] == items;
  }

  /** The series a sub-cursor visits. */
  function Positions(len: nat, p: nat, step: nat): seq<nat>
    requires step > 0
    decreases len - p
  {
    if p >= len then [] else [p] + Positions(len, p + step, step)
  }

  /** How many series with the same id directly precede `p` on the walk from `origin`. */
  function RunIndex(sids: seq<int>, origin: nat, step: nat, p: nat): nat
    requires step > 0 && p < |sids|
  {
    if p < origin + step || sids[p - step] != sids[p] then 0 else 1 + RunIndex(sids, origin, step, p - step)
  }

  /** The run is as long as it can be: its series have the same id, and the one before it has
      another id or is before the origin. */
  lemma {:induction false} RunIndexMeans(sids: seq<int>, origin: nat, step: nat, p: nat)
    requires step > 0 && origin <= p < |sids|
    ensures var n := RunIndex(sids, origin, step, p);
            && origin <= p - n * step
            && (forall k: nat :: k <= n ==> 0 <= p - k * step < |sids| && sids[p - k * step] == sids[p])
            && (p - n * step < origin + step || sids[p - n * step - step] != sids[p])
    decreases p
  {
    var n := RunIndex(sids, origin, step, p);
    if n > 0 {
      var q := p - step;
      RunIndexMeans(sids, origin, step, q);
      assert RunIndex(sids, origin, step, q) == n - 1;
      assert (n - 1) * step == n * step - step;
      forall k: nat | k <= n ensures 0 <= p - k * step < |sids| && sids[p - k * step] == sids[p] {
        RunStep(sids, origin, step, p, n, k);
      }
    } else {
      assert n * step == 0;
      forall k: nat | k <= n ensures 0 <= p - k * step < |sids| && sids[p - k * step] == sids[p] {
        assert k * step == 0;
      }
    }
  }

  lemma RunStep(sids: seq<int>, origin: nat, step: nat, p: nat, n: nat, k: nat)
    requires step > 0 && origin + step <= p < |sids| && k <= n && n > 0 && sids[p - step] == sids[p]
    requires forall j: nat :: j <= n - 1 ==>
               0 <= p - step - j * step < |sids| && sids[p - step - j * step] == sids[p - step]
    ensures 0 <= p - k * step < |sids| && sids[p - k * step] == sids[p]
  {
    if k > 0 {
      var j: nat := k - 1;
      assert j * step == k * step - step;
      assert 0 <= p - step - j * step < |sids|;
    } else {
      assert k * step == 0;
    }
  }

  datatype Visit = Visit(pos: nat, index: nat)

  class FileCursor {
    const sids: seq<int>
    const step: nat
    const origin: nat
    var start: nat
    var index: nat

    constructor (sids: seq<int>, start: nat, step: nat)
      requires step > 0
      ensures this.sids == sids && this.step == step && origin == start && At() == start && Valid()
    {
      this.sids, this.step, this.origin, this.start, this.index := sids, step, start, start, 0;
    }

    ghost function At(): nat
      reads this
    {
      start + index * step
    }

    ghost predicate Valid()
      reads this
    {
      step > 0 && origin <= At() && (At() < |sids| ==> index == RunIndex(sids, origin, step, At()))
    }

    method NextIndex(current: nat)
      requires Valid() && current == At() < |sids|
      modifies this
      ensures Valid() && At() == current + step
    {
      var next := current + step;
      if next < |sids| && sids[next] != sids[current] {
        start := next;
        index := 0;
      } else {
        assert (index + 1) * step == index * step + step;
        index := index + 1;
      }
    }

    method Next() returns (v: Option<Visit>)
      requires Valid()
      modifies this
      ensures Valid()
      ensures v.None? <==> old(At()) >= |sids|
      ensures v.Some? ==>
                v.value.pos == old(At()) && At() == old(At()) + step
                && v.value.index == RunIndex(sids, origin, step, old(At()))
    {
      var idx := index;
      var i := start + idx * step;
      if i >= |sids| {
        return None;
      }
      NextIndex(i);
      return Some(Visit(i, idx));
    }
  }

  lemma NextPosition(all: seq<nat>, k: nat, len: nat, p: nat, step: nat)
    requires step > 0 && p < len && k <= |all| && all[k..] == Positions(len, p, step)
    ensures k < |all| && all[k] == p && all[k + 1..] == Positions(len, p + step, step)
  {
    assert all[k..][0] == all[k] && all[k..][1..] == all[k + 1..];
  }

  lemma NoPosition(len: nat, p: nat, step: nat)
    requires step > 0 && p >= len
    ensures Positions(len, p, step) == []
  {
  }

  /** The whole walk of a sub-cursor. */
  method Walk(sids: seq<int>, start: nat, step: nat) returns (visits: seq<Visit>)
    requires step > 0
    ensures |visits| == |Positions(|sids|, start, step)|
    ensures forall k :: 0 <= k < |visits| ==>
              && visits[k].pos == Positions(|sids|, start, step)[k] < |sids|
              && visits[k].index == RunIndex(sids, start, step, visits[k].pos)
  {
    hide Positions, FileCursor.Valid, FileCursor.At, RunIndex;
    var cursor := new FileCursor(sids, start, step);
    visits := [];
    ghost var all := Positions(|sids|, start, step);
    while true
      invariant cursor.Valid() && cursor.sids == sids && cursor.step == step && cursor.origin == start
      invariant |visits| <= |all| && all[|visits|..] == Positions(|sids|, cursor.At(), step)
      invariant forall k :: 0 <= k < |visits| ==>
                  visits[k].pos == all[k] < |sids| && visits[k].index == RunIndex(sids, start, step, visits[k].pos)
      decreases |all| - |visits|
    {
      ghost var at := cursor.At();
      var v := cursor.Next();
      if v.None? {
        NoPosition(|sids|, at, step);
        return;
      }
      NextPosition(all, |visits|, |sids|, v.value.pos, step);
      visits := visits + [v.value];
    }
  }

  lemma {:induction false} InPositions(len: nat, p: nat, step: nat, j: nat)
    requires step > 0
    ensures j in Positions(len, p, step) <==> p <= j < len && Aligned(j - p, step)
    decreases len - p
  {
    if p < len {
      InPositions(len, p + step, step, j);
      assert j - p - step == j - (p + step);
    }
  }

  /** Stride `n` from `s` reaches `j` exactly if `s` is the rest of `j`. */
  lemma RestIsStart(j: nat, s: nat, n: nat)
    requires s < n
    ensures s <= j && Aligned(j - s, n) <==> s == j % n
  {
    if s <= j && Aligned(j - s, n) {
      var q := AlignedIsMultiple(j - s, n);
      QuotRem(j, n, q, s);
    }
    if s == j % n {
      assert j - s == j / n * n;
      AlignedMultiple(j / n, n);
    }
  }

  /** Sub-cursor `x` visits series `j` of tag set `i`. */
  predicate Visits(x: Item, i: nat, j: nat, len: nat) {
    x.tagSet == i && x.step > 0 && j in Positions(len, x.start, x.step)
  }

  lemma {:induction false} ItemPlaces(sidCnts: seq<nat>, p: nat, k: nat, l: nat)
    requires k < |AllItems(sidCnts, p)| && l < |AllItems(sidCnts, p)|
    ensures var x := AllItems(sidCnts, p)[k];
            x.tagSet < |sidCnts| && x.step == SubTagSetN(p, sidCnts[x.tagSet]) && x.start < x.step
    ensures AllItems(sidCnts, p)[k] == AllItems(sidCnts, p)[l] ==> k == l
  {
    var i := |sidCnts| - 1;
    var before := AllItems(sidCnts[..i], p);
    if k < |before| {
      ItemPlaces(sidCnts[..i], p, k, if l < |before| then l else k);
    }
    if l < |before| {
      ItemPlaces(sidCnts[..i], p, l, l);
    }
  }

  lemma {:induction false} ItemExists(sidCnts: seq<nat>, p: nat, i: nat, s: nat) returns (k: nat)
    requires i < |sidCnts| && s < SubTagSetN(p, sidCnts[i])
    ensures k < |AllItems(sidCnts, p)| && AllItems(sidCnts, p)[k] == Item(i, s, SubTagSetN(p, sidCnts[i]))
  {
    var n := |sidCnts| - 1;
    if i < n {
      k := ItemExists(sidCnts[..n], p, i, s);
    } else {
      k := |AllItems(sidCnts[..n], p)| + s;
    }
  }

  /** Every series of every tag set is visited by exactly one sub-cursor. */
  lemma EverySeriesOnce(sidCnts: seq<nat>, p: nat, i: nat, j: nat) returns (k: nat)
    requires p > 0 && i < |sidCnts| && j < sidCnts[i]
    ensures k < |AllItems(sidCnts, p)|
    ensures forall l :: 0 <= l < |AllItems(sidCnts, p)| ==>
              (Visits(AllItems(sidCnts, p)[l], i, j, sidCnts[i]) <==> l == k)
  {
    hide AllItems, Positions;
    var n := SubTagSetN(p, sidCnts[i]);
    k := ItemExists(sidCnts, p, i, j % n);
    forall l | 0 <= l < |AllItems(sidCnts, p)| ensures Visits(AllItems(sidCnts, p)[l], i, j, sidCnts[i]) <==> l == k {
      var x := AllItems(sidCnts, p)[l];
      ItemPlaces(sidCnts, p, l, k);
      if x.tagSet == i {
        InPositions(sidCnts[i], x.start, x.step, j);
        RestIsStart(j, x.start, n);
      }
    }
  }
}

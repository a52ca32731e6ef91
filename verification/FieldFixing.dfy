/**
  The fields of a row, in the order of their keys: fields named "time" are dropped, and
  of several fields with the same key the last one wins.
 */
module FieldFixing {
  import opened Options

  datatype Field = Field(key: string, ty: int, value: real)

  /** Fields without those named "time". */
  function Timeless(fields: seq<Field>): seq<Field> {
    if fields == [] then []
    else
      var n := |fields| - 1;
      Timeless(fields[..n]) + (if fields[n].key == "time" then [] else [fields[n]])
  }

  /** The last field of every run of equal keys. */
  function LastOfRuns(fields: seq<Field>): seq<Field> {
    if fields == [] then []
    else
      var n := |fields| - 1;
      var before := LastOfRuns(fields[..n]);
      (if n > 0 && before != [] && before[|before| - 1].key == fields[n].key then before[..|before| - 1] else before)
      + [fields[n]]
  }

  /** Two neighbours have the same key but different types. */
  predicate Conflict(fields: seq<Field>) {
    var n := |fields| - 1;
    n > 0 && (Conflict(fields[..n]) || Clash(fields[n - 1], fields[n]))
  }

  predicate Clash(f: Field, g: Field) {
    f.key == g.key && f.ty != g.ty
  }

  lemma {:induction false} LastOfRunsEnds(fields: seq<Field>)
    requires fields != []
    ensures var r := LastOfRuns(fields); r != [] && r[|r| - 1] == fields[|fields| - 1]
  {
  }

  lemma TimelessSnoc(fields: seq<Field>, f: Field)
    ensures Timeless(fields + [f]) == if f.key == "time" then Timeless(fields) else Timeless(fields) + [f]
  {
    assert (fields + [f])[..|fields|] == fields;
  }

  lemma LastOfRunsSnoc(fields: seq<Field>, f: Field)
    ensures LastOfRuns(fields + [f])
         == (if fields != [] && fields[|fields| - 1].key == f.key then LastOfRuns(fields)[..|LastOfRuns(fields)| - 1]
             else LastOfRuns(fields)) + [f]
  {
    assert (fields + [f])[..|fields|] == fields;
    if fields != [] {
      LastOfRunsEnds(fields);
    }
  }

  lemma ConflictSnoc(fields: seq<Field>, f: Field)
    ensures Conflict(fields + [f])
       <==> Conflict(fields) || (fields != [] && Clash(fields[|fields| - 1], f))
  {
    assert (fields + [f])[..|fields|] == fields;
  }

  /** Fails exactly if neighbours other than "time" fields disagree about their type. */
  method FixFields(fields0: seq<Field>) returns (r: Option<seq<Field>>)
    ensures r.None? <==> Conflict(Timeless(fields0))
    ensures r.Some? ==> r.value == LastOfRuns(Timeless(fields0))
  {
    hide Timeless, LastOfRuns, Conflict;
    var fields := fields0;
    var i := 0;
    // the fields looked at, which became fields[..i]
    ghost var k := 0;
    Nothing();
    assert fields0[..0] == [];
    while i < |fields|
      invariant 0 <= i <= |fields| && k <= |fields0| && fields[i..] == fields0[k..]
      invariant fields[..i] == LastOfRuns(Timeless(fields0[..k])) && !Conflict(Timeless(fields0[..k]))
      decreases |fields| - i
    {
      ghost var done := Timeless(fields0[..k]);
      assert fields[i] == fields0[k] by { assert fields[i] == fields[i..][0]; }
      assert fields0[..k] + [fields0[k]] == fields0[..k + 1] && fields0[k..][1..] == fields0[k + 1..]
          && fields[i..][1..] == fields[i + 1..];
      TimelessSnoc(fields0[..k], fields0[k]);
      if fields[i].key == "time" {
        fields := fields[..i] + fields[i + 1..];
        k := k + 1;
        assert fields[i..] == fields0[k..];
        continue;
      }
      LastOfRunsSnoc(done, fields0[k]);
      ConflictSnoc(done, fields0[k]);
      EndsAlike(done);
      if i > 0 && fields[i - 1].key == fields[i].key {
        if fields[i - 1].ty != fields[i].ty {
          ConflictStays(fields0, k + 1);
          return None;
        }
        fields := fields[..i - 1] + fields[i..];
        i := i - 1;
      }
      k := k + 1;
      i := i + 1;
    }
    assert fields0[k..] == [] && fields0[..k] == fields0 && fields[..i] == fields;
    return Some(fields);
  }

  lemma Nothing()
    ensures Timeless([]) == [] && LastOfRuns([]) == [] && !Conflict([])
  {
  }

  lemma EndsAlike(fields: seq<Field>)
    ensures fields == [] <==> LastOfRuns(fields) == []
    ensures fields != [] ==> LastOfRuns(fields)[|LastOfRuns(fields)| - 1] == fields[|fields| - 1]
  {
    if fields != [] {
      LastOfRunsEnds(fields);
    }
  }

  lemma {:induction false} ConflictStays(fields: seq<Field>, k: nat)
    requires k <= |fields| && Conflict(Timeless(fields[..k]))
    ensures Conflict(Timeless(fields))
    decreases |fields|
  {
    hide Conflict, Timeless, Clash;
    if k == |fields| {
      assert fields[..k] == fields;
    } else {
      var n := |fields| - 1;
      assert fields[..n][..k] == fields[..k];
      ConflictStays(fields[..n], k);
      TimelessSnoc(fields[..n], fields[n]);
      assert fields[..n] + [fields[n]] == fields;
      if fields[n].key != "time" {
        ConflictSnoc(Timeless(fields[..n]), fields[n]);
      }
    }
  }

  /** The order of keys. */
  predicate Less(a: string, b: string) {
    b != [] && (a == [] || a[0] < b[0] || (a[0] == b[0] && Less(a[1..], b[1..])))
  }

  lemma {:induction false} LessTotal(a: string, b: string)
    ensures Less(a, b) || a == b || Less(b, a)
    ensures !(Less(a, b) && Less(b, a))
    ensures !Less(a, a)
  {
    if a != [] {
      LessTotal(a[1..], a[1..]);
    }
    if a != [] && b != [] && a[0] == b[0] {
      LessTotal(a[1..], b[1..]);
      assert a == [a[0]] + a[1..] && b == [b[0]] + b[1..];
    }
  }

  lemma {:induction false} LessTransitive(a: string, b: string, c: string)
    requires Less(a, b) && Less(b, c)
    ensures Less(a, c)
  {
    if a != [] && a[0] == b[0] == c[0] {
      LessTransitive(a[1..], b[1..], c[1..]);
    }
  }

  ghost predicate KeySorted(fields: seq<Field>) {
    forall i, j :: 0 <= i < j < |fields| ==> !Less(fields[j].key, fields[i].key)
  }

  /** The last field with a key. */
  function LastWith(fields: seq<Field>, key: string): Option<Field> {
    if fields == [] then None
    else if fields[|fields| - 1].key == key then Some(fields[|fields| - 1])
    else LastWith(fields[..|fields| - 1], key)
  }

  lemma {:induction false} TimelessMeaning(fields: seq<Field>)
    requires KeySorted(fields)
    ensures KeySorted(Timeless(fields))
    ensures forall f :: f in Timeless(fields) <==> f in fields && f.key != "time"
    ensures forall key :: key != "time" ==> LastWith(Timeless(fields), key) == LastWith(fields, key)
  {
    hide Less, LastWith, Timeless, KeySorted;
    if fields == [] {
      NothingTimeless();
    } else {
      var n := |fields| - 1;
      var init, x := fields[..n], fields[n];
      SortedInit(fields);
      TimelessMeaning(init);
      TimelessSnoc(init, x);
      var g := Timeless(init);
      assert fields == init + [x];
      SortedMore(fields, g);
      forall key: string ensures LastWith(fields, key) == (if x.key == key then Some(x) else LastWith(init, key))
      {
        LastWithSnoc(init, x, key);
      }
      forall key: string ensures LastWith(g + [x], key) == (if x.key == key then Some(x) else LastWith(g, key)) {
        LastWithSnoc(g, x, key);
      }
    }
  }

  lemma NothingTimeless()
    ensures Timeless([]) == [] && KeySorted([])
  {
  }

  lemma LastWithSnoc(fields: seq<Field>, x: Field, key: string)
    ensures LastWith(fields + [x], key) == if x.key == key then Some(x) else LastWith(fields, key)
  {
    assert (fields + [x])[..|fields|] == fields;
  }

  lemma SortedInit(fields: seq<Field>)
    requires fields != [] && KeySorted(fields)
    ensures KeySorted(fields[..|fields| - 1])
  {
    hide Less;
  }

  lemma SortedMore(fields: seq<Field>, g: seq<Field>)
    requires fields != [] && KeySorted(fields) && KeySorted(g) && forall f :: f in g ==> f in fields[..|fields| - 1]
    ensures KeySorted(g + [fields[|fields| - 1]])
  {
    hide Less;
    var x, all := fields[|fields| - 1], g + [fields[|fields| - 1]];
    forall i, j | 0 <= i < j < |all| ensures !Less(all[j].key, all[i].key) {
      if j == |g| {
        assert g[i] in g;
      }
    }
  }

  lemma {:induction false} LastWithIn(fields: seq<Field>, key: string)
    ensures LastWith(fields, key).Some? <==> exists i :: 0 <= i < |fields| && fields[i].key == key
    ensures LastWith(fields, key).Some? ==>
              LastWith(fields, key).value in fields && LastWith(fields, key).value.key == key
  {
    if fields != [] {
      LastWithIn(fields[..|fields| - 1], key);
    }
  }

  /** Rising keys, and for every key the last field with it. */
  ghost predicate Lasts(fields: seq<Field>, r: seq<Field>) {
    && (forall i, j :: 0 <= i < j < |r| ==> Less(r[i].key, r[j].key))
    && (forall f :: f in r <==> LastWith(fields, f.key) == Some(f))
  }

  /** With sorted keys every run of equal keys is all fields with that key. */
  lemma {:induction false} LastOfRunsMeaning(fields: seq<Field>)
    requires KeySorted(fields)
    ensures Lasts(fields, LastOfRuns(fields))
  {
    hide Less, Lasts;
    if fields == [] {
      NoLasts();
    } else {
      var n := |fields| - 1;
      var before, x := fields[..n], fields[n];
      assert before + [x] == fields;
      LastOfRunsMeaning(before);
      LastOfRunsSnoc(before, x);
      EndsAlike(before);
      var r := LastOfRuns(before);
      KeptBefore(before, x, r);
      var kept := if before != [] && before[|before| - 1].key == x.key then r[..|r| - 1] else r;
      LastsSnoc(before, x, r, kept);
    }
  }

  lemma NoLasts()
    ensures Lasts([], [])
  {
  }

  lemma LastsSnoc(before: seq<Field>, x: Field, r: seq<Field>, kept: seq<Field>)
    requires Lasts(before, r) && kept <= r && (forall i :: 0 <= i < |kept| ==> Less(kept[i].key, x.key))
    requires forall f :: f in kept <==> f.key != x.key && LastWith(before, f.key) == Some(f)
    ensures Lasts(before + [x], kept + [x])
  {
    hide Less;
    assert (before + [x])[..|before|] == before;
    forall f: Field ensures f in kept + [x] <==> LastWith(before + [x], f.key) == Some(f) {
      assert f in kept + [x] <==> f in kept || f == x;
    }
  }

  lemma KeptBefore(before: seq<Field>, x: Field, r: seq<Field>)
    requires KeySorted(before + [x]) && (r == [] <==> before == []) && (r != [] ==> r[|r| - 1] == before[|before| - 1])
    requires Lasts(before, r)
    ensures var kept := if before != [] && before[|before| - 1].key == x.key then r[..|r| - 1] else r;
            && (forall i :: 0 <= i < |kept| ==> Less(kept[i].key, x.key))
            && (forall f :: f in kept <==> f.key != x.key && LastWith(before, f.key) == Some(f))
  {
    hide Less;
    if before != [] {
      var last := before[|before| - 1];
      var all := before + [x];
      assert all[|before|] == x && all[|before| - 1] == last;
      LessTotal(last.key, x.key);
      forall i | 0 <= i < |r| ensures r[i].key == last.key <==> i == |r| - 1 {
        LessTotal(r[i].key, last.key);
      }
      forall i | 0 <= i < |r| - 1 ensures Less(r[i].key, x.key) {
        if Less(last.key, x.key) {
          LessTransitive(r[i].key, last.key, x.key);
        }
      }
      KeptKeys(r, x.key, last.key);
    }
  }

  lemma KeptKeys(r: seq<Field>, key: string, lastKey: string)
    requires r != [] && (forall i :: 0 <= i < |r| ==> (r[i].key == lastKey <==> i == |r| - 1))
    requires key == lastKey || Less(lastKey, key)
    requires forall i :: 0 <= i < |r| - 1 ==> Less(r[i].key, key)
    ensures var kept := if lastKey == key then r[..|r| - 1] else r; forall f :: f in kept <==> f.key != key && f in r
  {
    hide Less;
    forall i | 0 <= i < |r| - 1 ensures r[i].key != key {
      LessTotal(r[i].key, key);
    }
    LessTotal(lastKey, key);
    var kept := if lastKey == key then r[..|r| - 1] else r;
    forall f: Field ensures f in kept <==> f.key != key && f in r {
      if f in kept {
        var i :| 0 <= i < |kept| && kept[i] == f;
        assert r[i] == f;
      }
      if f.key != key && f in r {
        var i :| 0 <= i < |r| && r[i] == f;
        assert lastKey == key ==> i < |r| - 1;
        assert kept[i] == f;
      }
    }
  }

  /** With sorted keys neighbours disagree if any two fields with the same key do. */
  lemma {:induction false} Disagree(fields: seq<Field>, i: nat, j: nat)
    requires KeySorted(fields) && i < j < |fields| && Clash(fields[i], fields[j])
    ensures Conflict(fields)
    decreases j - i
  {
    hide Less;
    LessTotal(fields[i].key, fields[j - 1].key);
    LessTotal(fields[i].key, fields[j].key);
    if Clash(fields[j - 1], fields[j]) {
      ConflictHere(fields, j);
    } else {
      Disagree(fields, i, j - 1);
    }
  }

  /** No later field has the key of `f`. */
  ghost predicate IsLastOf(fields: seq<Field>, f: Field) {
    exists i :: 0 <= i < |fields| && fields[i] == f && NotAfter(fields, i, f.key)
  }

  ghost predicate NotAfter(fields: seq<Field>, i: int, key: string) {
    forall j :: 0 <= i < j < |fields| ==> fields[j].key != key
  }

  lemma {:induction false} LastWithMeans(fields: seq<Field>, f: Field)
    ensures LastWith(fields, f.key) == Some(f) <==> IsLastOf(fields, f)
  {
    if fields != [] {
      var n := |fields| - 1;
      var init, last := fields[..n], fields[n];
      LastWithMeans(init, f);
      if last.key == f.key {
        assert NotAfter(fields, n, f.key);
      } else {
        forall i | 0 <= i < n ensures NotAfter(fields, i, f.key) <==> NotAfter(init, i, f.key) {
          assert forall j :: 0 <= j < n ==> init[j] == fields[j];
        }
        if IsLastOf(init, f) {
          var i :| 0 <= i < n && init[i] == f && NotAfter(init, i, f.key);
          assert fields[i] == f;
        }
        if IsLastOf(fields, f) {
          var i :| 0 <= i < |fields| && fields[i] == f && NotAfter(fields, i, f.key);
          assert i < n && init[i] == f;
        }
      }
    }
  }

  /** What the fields of a row become: rising keys, never "time", for each key the last
      field with it. */
  lemma FixedFields(fields: seq<Field>)
    requires KeySorted(fields)
    ensures var r := LastOfRuns(Timeless(fields));
            && (forall i, j :: 0 <= i < j < |r| ==> Less(r[i].key, r[j].key))
            && (forall f :: f in r <==> f.key != "time" && IsLastOf(fields, f))
  {
    hide Less, Timeless, LastOfRuns, KeySorted, LastWith, IsLastOf;
    forall f: Field ensures LastWith(fields, f.key) == Some(f) <==> IsLastOf(fields, f) {
      LastWithMeans(fields, f);
    }
    var g := Timeless(fields);
    TimelessMeaning(fields);
    LastOfRunsMeaning(g);
    forall f: Field ensures LastWith(g, f.key) == Some(f) ==> f.key != "time" {
      LastWithIn(g, f.key);
    }
  }

  /** It is an error exactly if two fields with the same key differ in type. */
  lemma FixFails(fields: seq<Field>)
    requires KeySorted(fields)
    ensures Conflict(Timeless(fields))
       <==> exists f, g :: f in fields && g in fields && f.key == g.key != "time" && f.ty != g.ty
  {
    hide Less, Timeless, LastWith, KeySorted, Conflict;
    var g := Timeless(fields);
    TimelessMeaning(fields);
    if x, y :| x in fields && y in fields && x.key == y.key != "time" && x.ty != y.ty {
      assert x in g && y in g;
      var i :| 0 <= i < |g| && g[i] == x;
      var j :| 0 <= j < |g| && g[j] == y;
      Disagree(g, if i < j then i else j, if i < j then j else i);
    }
    if Conflict(g) {
      var i := ConflictAt(g);
      assert g[i - 1] in g && g[i] in g;
    }
  }

  lemma {:induction false} ConflictAt(fields: seq<Field>) returns (i: nat)
    requires Conflict(fields)
    ensures 0 < i < |fields| && Clash(fields[i - 1], fields[i])
  {
    var n := |fields| - 1;
    if Clash(fields[n - 1], fields[n]) {
      i := n;
    } else {
      i := ConflictAt(fields[..n]);
    }
  }

  lemma {:induction false} ConflictHere(fields: seq<Field>, i: nat)
    requires 0 < i < |fields| && Clash(fields[i - 1], fields[i])
    ensures Conflict(fields)
  {
    if i < |fields| - 1 {
      ConflictHere(fields[..|fields| - 1], i);
    }
  }
}

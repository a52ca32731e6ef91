/**
  The engine's table of partitions: references for a batch of partitions, and
  the lock that lets one migration step at a time work on a partition.
 */
module PartitionEngine {
  import opened Options
  import opened Partition

  datatype Error = PtNotFound | DBPTClosed

  function Referenced(p: Pt, n: int): Pt {
    p.(exeCount := p.exeCount + n)
  }

  /** How often `id` is listed. */
  function Times(ids: seq<nat>, id: nat): int {
    if ids == [] then 0 else (if ids[0] == id then 1 else 0) + Times(ids[1..], id)
  }

  lemma {:induction false} TimesSnocOne(ids: seq<nat>, x: nat, id: nat)
    ensures Times(ids + [x], id) == Times(ids, id) + (if x == id then 1 else 0)
  {
    if ids != [] {
      assert (ids + [x])[1..] == ids[1..] + [x];
      TimesSnocOne(ids[1..], x, id);
    }
  }

  lemma TimesSnoc(ids: seq<nat>, x: nat)
    ensures forall id :: Times(ids + [x], id) == Times(ids, id) + (if x == id then 1 else 0)
  {
    forall id ensures Times(ids + [x], id) == Times(ids, id) + (if x == id then 1 else 0) {
      TimesSnocOne(ids, x, id);
    }
  }

  lemma NoTimes()
    ensures forall id :: Times([], id) == 0
  {
  }

  lemma TimesCons(ids: seq<nat>)
    requires ids != []
    ensures forall id :: Times(ids, id) == Times(ids[1..], id) + (if ids[0] == id then 1 else 0)
  {
  }

  /** Why a reference to partition `id` is refused, if it is. */
  function Refusal(views: map<nat, Pt>, id: nat): Option<Error> {
    if id !in views then Some(PtNotFound)
    else if Refuses(views[id]) then Some(DBPTClosed)
    else None
  }

  lemma Usable(views: map<nat, Pt>, ids: seq<nat>)
    requires forall k :: 0 <= k < |ids| ==> Refusal(views, ids[k]).None?
    ensures forall k :: 0 <= k < |ids| ==> ids[k] in views && !views[ids[k]].offloading
  {
    forall k | 0 <= k < |ids| ensures ids[k] in views && !views[ids[k]].offloading {
      assert Refusal(views, ids[k]).None?;
    }
  }

  class Engine {
    var dbPartitions: map<string, map<nat, DBPTInfo>>
    var migratingDbPT: map<string, set<nat>>

    /** The partitions of a database (none if it is not open here). */
    function Parts(db: string): map<nat, DBPTInfo>
      reads this
    {
      if db in dbPartitions then dbPartitions[db] else map[]
    }

    /** Different partitions are different objects. */
    ghost predicate Separate(db: string)
      reads this
    {
      forall i, j :: i in Parts(db) && j in Parts(db) && i != j ==> Parts(db)[i] != Parts(db)[j]
    }

    method CheckAndAddRefPT(db: string, id: nat) returns (err: Option<Error>)
      modifies Parts(db).Values
      ensures err == Refusal(old(Views(db)), id)
      ensures err == Some(PtNotFound) <==> id !in Parts(db)
      ensures id in Parts(db) ==> (err.None? <==> !old(Parts(db)[id].offloading) && !old(Parts(db)[id].preload))
      ensures err.None? ==>
                Parts(db)[id].View() == old(Parts(db)[id].View()).(exeCount := old(Parts(db)[id].exeCount) + 1)
      ensures forall p: DBPTInfo :: p in Parts(db).Values && (err.Some? || p != Parts(db)[id]) ==>
                p.View() == old(p.View())
    {
      if db in dbPartitions {
        if id in dbPartitions[db] {
          var ok := dbPartitions[db][id].Ref();
          err := if ok then None else Some(DBPTClosed);
        } else {
          err := Some(PtNotFound);
        }
      } else {
        err := Some(PtNotFound);
      }
    }

    /** Every partition stands as in `base`, with one reference more for each time
        it is listed in `more`. */
    ghost predicate Stand(db: string, base: map<nat, Pt>, more: seq<nat>)
      reads this, Parts(db).Values
    {
      && base.Keys == Parts(db).Keys
      && forall id :: id in base ==> Parts(db)[id].View() == Referenced(base[id], Times(more, id))
    }

    ghost function Views(db: string): map<nat, Pt>
      reads this, Parts(db).Values
    {
      map id | id in Parts(db) :: Parts(db)[id].View()
    }

    lemma StandNow(db: string)
      ensures Stand(db, Views(db), [])
    {
      NoTimes();
    }

    /** A reference is refused for the same reason however many there are. */
    lemma SameRefusal(db: string, base: map<nat, Pt>, more: seq<nat>, id: nat)
      requires Stand(db, base, more)
      ensures Refusal(Views(db), id) == Refusal(base, id)
    {
    }

    /** References for a list of partitions, all or none: if one is refused, every
        count is as it was, and the error is that of the first refusal. */
    method CheckAndAddRefPTs(db: string, ids: seq<nat>) returns (refs: seq<nat>, err: Option<Error>)
      requires Separate(db)
      modifies Parts(db).Values
      ensures |refs| <= |ids| && refs == ids[..|refs|]
      ensures forall k :: 0 <= k < |refs| ==> Refusal(old(Views(db)), ids[k]).None?
      ensures err.Some? ==> |refs| < |ids| && err == Refusal(old(Views(db)), ids[|refs|])
      ensures err.None? ==> refs == ids
      ensures Stand(db, old(Views(db)), if err.None? then ids else [])
    {
      hide Times, Stand, Refusal, Separate, Views;
      ghost var base := Views(db);
      StandNow(db);
      refs := [];
      err := None;
      while |refs| < |ids| && err.None?
        invariant dbPartitions == old(dbPartitions)
        invariant |refs| <= |ids| && refs == ids[..|refs|]
        invariant Stand(db, base, refs)
        invariant forall k :: 0 <= k < |refs| ==> Refusal(base, ids[k]).None?
        invariant err.Some? ==> |refs| < |ids| && err == Refusal(base, ids[|refs|])
        decreases |ids| - |refs|, err.None?
      {
        refs, err := AddRef(db, ids, refs, base);
      }
      if err.Some? {
        Usable(base, refs);
        UnrefDBPTs(db, refs, base);
      }
    }

    /** One turn of the loop over the partitions. */
    method AddRef(db: string, ids: seq<nat>, refs0: seq<nat>, ghost base: map<nat, Pt>)
      returns (refs: seq<nat>, err: Option<Error>)
      requires Separate(db) && |refs0| < |ids| && Stand(db, base, refs0)
      modifies Parts(db).Values
      ensures err == Refusal(base, ids[|refs0|])
      ensures refs == if err.None? then refs0 + [ids[|refs0|]] else refs0
      ensures Stand(db, base, refs)
    {
      hide Times, Refusal, Views;
      var id := ids[|refs0|];
      SameRefusal(db, base, refs0, id);
      TimesSnoc(refs0, id);
      ghost var parts := Parts(db);
      err := CheckAndAddRefPT(db, id);
      refs := if err.None? then refs0 + [id] else refs0;
      forall j | j in base ensures Parts(db)[j].View() == Referenced(base[j], Times(refs, j)) {
        assert parts[j] in parts.Values;
      }
    }

    /** Gives references back; nothing happens if the database is not open here. */
    method UnrefDBPTs(db: string, ids: seq<nat>, ghost base: map<nat, Pt>)
      requires Separate(db)
      requires db in dbPartitions ==> Stand(db, base, ids) && forall k :: 0 <= k < |ids| ==>
                 ids[k] in base && !base[ids[k]].offloading
      modifies Parts(db).Values
      ensures db in dbPartitions ==> Stand(db, base, [])
    {
      hide Times, Views;
      var i := 0;
      assert ids[i..] == ids;
      while i < |ids|
        invariant 0 <= i <= |ids| && dbPartitions == old(dbPartitions)
        invariant db in dbPartitions ==> Stand(db, base, ids[i..])
      {
        if db in dbPartitions {
          TimesCons(ids[i..]);
          assert ids[i..][1..] == ids[i + 1..];
          var notice := dbPartitions[db][ids[i]].Unref();
        }
        i := i + 1;
      }
      assert ids[i..] == [];
    }

    // ----- the migration lock

    ghost predicate Migrating(db: string, id: nat)
      reads this
    {
      db in migratingDbPT && id in migratingDbPT[db]
    }

    method TrySetDbPtMigrating(db: string, id: nat) returns (ok: bool)
      modifies this`migratingDbPT
      ensures ok <==> !old(Migrating(db, id))
      ensures forall d, i :: Migrating(d, i) <==> old(Migrating(d, i)) || (d == db && i == id)
    {
      if db !in migratingDbPT {
        migratingDbPT := migratingDbPT[db := {id}];
        return true;
      }
      if id !in migratingDbPT[db] {
        migratingDbPT := migratingDbPT[db := migratingDbPT[db] + {id}];
        return true;
      }
      ok := false;
    }

    method ClearDbPtMigrating(db: string, id: nat)
      modifies this`migratingDbPT
      ensures forall d, i :: Migrating(d, i) <==> old(Migrating(d, i)) && !(d == db && i == id)
    {
      if db !in migratingDbPT {
        return;
      }
      migratingDbPT := migratingDbPT[db := migratingDbPT[db] - {id}];
    }
  }
}

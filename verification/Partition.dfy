/**
  One database partition: reference counting, the offload mark with its hand-off
  channel, and the gates that keep shard moves and shard deletes apart from a
  migration.  Every function here is the effect of one locked region.
 */
module Partition {
  import opened Options

  /** The lifecycle fields of a partition.  Channels are known by number. */
  datatype Pt = Pt(
    exeCount: int,
    offloading: bool,
    preload: bool,
    ch: Option<nat>,
    doingOff: bool,
    doingShardMoveN: int,
    bgrEnabled: bool,
    pendingShardDeletes: set<nat>
  )

  const NewPt := Pt(0, false, false, None, false, 0, true, {})

  /** A new reference is refused. */
  predicate Refuses(p: Pt) {
    p.offloading || p.preload
  }

  /** The outcome of giving back a reference. */
  datatype Notice = Quiet | NilChannel | Signal(ch: nat)

  /** Who has to be told after the count went down to `newCount`. */
  function NoticeAt(p: Pt, newCount: int): Notice {
    if !p.offloading || newCount != 0 then Quiet
    else match p.ch
      case None => NilChannel
      case Some(c) => Signal(c)
  }

  /** Offload marking: `true` means that no reference is left. */
  function Marked(p: Pt, c: nat): (Pt, bool) {
    if p.offloading then (p, false)
    else if p.exeCount == 0 then (p.(offloading := true), true)
    else (p.(offloading := true, ch := Some(c)), false)
  }

  /** Unmarking gives back the channel to be closed, if one is waited on. */
  function Unmarked(p: Pt): (Pt, Option<nat>) {
    if !p.offloading then (p, None) else (p.(offloading := false, ch := None), p.ch)
  }

  /** The first gate of a migration: no shard move may be running. */
  function GatedOff(p: Pt): (Pt, bool) {
    if p.doingShardMoveN > 0 then (p, false) else (p.(doingOff := true), true)
  }

  /** The second gate: no shard delete may be pending. */
  function BgrDisabled(p: Pt): (Pt, bool) {
    if p.pendingShardDeletes != {} then (p, false) else (p.(bgrEnabled := false), true)
  }

  /** A rollback opens the second gate again. */
  function BgrEnabled(p: Pt): Pt {
    p.(bgrEnabled := true)
  }

  /** The partition as an object. */
  class DBPTInfo {
    var exeCount: int
    var offloading: bool
    var preload: bool
    var ch: Option<nat>
    var doingOff: bool
    var doingShardMoveN: int
    var bgrEnabled: bool
    var pendingShardDeletes: set<nat>

    constructor ()
      ensures View() == NewPt
    {
      exeCount, offloading, preload, ch := 0, false, false, None;
      doingOff, doingShardMoveN, bgrEnabled, pendingShardDeletes := false, 0, true, {};
    }

    function View(): Pt
      reads this
    {
      Pt(exeCount, offloading, preload, ch, doingOff, doingShardMoveN, bgrEnabled, pendingShardDeletes)
    }

    method Ref() returns (ok: bool)
      modifies this
      ensures ok <==> !old(offloading) && !old(preload)
      ensures ok <==> !Refuses(old(View()))
      ensures View() == if ok then old(View()).(exeCount := old(exeCount) + 1) else old(View())
    {
      if offloading || preload {
        return false;
      }
      exeCount := exeCount + 1;
      ok := true;
    }

    /** Gives back a reference; a signalled channel is sent to, closed and dropped. */
    method Unref() returns (notice: Notice)
      modifies this
      ensures notice == NoticeAt(old(View()), old(exeCount) - 1)
      ensures notice.Quiet? <==> !offloading || exeCount != 0
      ensures notice.Signal? ==> old(ch) == Some(notice.ch)
      ensures View() == old(View()).(exeCount := old(exeCount) - 1, ch := if notice.Signal? then None else old(ch))
    {
      exeCount := exeCount - 1;
      if !offloading || exeCount != 0 {
        return Quiet;
      }
      if ch == None {
        return NilChannel;
      }
      notice := Signal(ch.value);
      ch := None;
    }

    method MarkOffload(c: nat) returns (idle: bool)
      modifies this
      ensures (View(), idle) == Marked(old(View()), c)
      ensures offloading && (idle <==> !old(offloading) && exeCount == 0)
      ensures ch == if !old(offloading) && exeCount != 0 then Some(c) else old(ch)
    {
      if offloading {
        return false;
      }
      offloading := true;
      if exeCount == 0 {
        return true;
      }
      ch := Some(c);
      idle := false;
    }

    method UnMarkOffload() returns (closed: Option<nat>)
      modifies this
      ensures (View(), closed) == Unmarked(old(View()))
      ensures !offloading && (old(offloading) ==> ch.None? && closed == old(ch))
    {
      if !offloading {
        return None;
      }
      offloading := false;
      closed := ch;
      if ch != None {
        ch := None;
      }
    }

    method DisableDBPtBgr() returns (ok: bool)
      modifies this
      ensures (View(), ok) == BgrDisabled(old(View()))
      ensures ok <==> old(pendingShardDeletes) == {}
      ensures bgrEnabled == (old(bgrEnabled) && !ok)
    {
      if pendingShardDeletes != {} {
        return false;
      }
      bgrEnabled := false;
      ok := true;
    }

    method EnableDBPtBgr()
      modifies this
      ensures View() == BgrEnabled(old(View())) && bgrEnabled
    {
      bgrEnabled := true;
    }
  }
}

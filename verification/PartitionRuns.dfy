/**
  All interleavings of the threads that work on one partition: readers and
  writers that hold a reference, shard moves, shard deletes, the migration steps
  PreOffload and RollbackPreOffload, Offload, and DeleteDatabase.
 */
module PartitionRuns {
  import opened Options
  import opened Partition

  /** The two operations that close a partition: the first holds the migration
      lock of the partition, the second only the drop lock of the database. */
  datatype Closer = Offload | DeleteDatabase

  /** Where a thread stands. */
  datatype Phase =
    | Idle
    | Held                                // has a reference
    | Moving                              // has a reference and moves a shard, an index or a merge
    | Deleting(shard: nat)                // has a reference and deletes a shard
    | PreStart | Pre1 | Pre2 | PreLeave   // PreOffload
    | RollStart | Roll1 | Roll2 | Roll3   // RollbackPreOffload
    | Leaving(count: int, next: After)    // gave back its reference, still in the read lock
    | CloseStart(who: Closer)
    | Waiting(who: Closer, done: nat)
    | Closing(who: Closer)
    | GivingUp(who: Closer)
    | Unlocking(who: Closer)

  /** What a thread does after it has given back its reference. */
  datatype After = ToIdle | ToUnlock | ToRoll3

  /** A channel: how often it was sent to and closed. */
  datatype Chan = Chan(sends: nat, closes: nat)

  /** What the threads share. */
  datatype Shared = Shared(
    pt: Pt,
    chans: seq<Chan>,
    migrating: bool,
    dropping: bool,
    dropped: bool,
    panicked: bool
  )

  datatype State = State(g: Shared, threads: map<nat, Phase>)

  /** Which closing operations take place at all. */
  datatype Config = Config(offloads: bool, drops: bool)

  /** Taking and giving back references. */
  datatype RefAction = TakeRef | GiveRef | Notify | EndPreload

  /** Shard moves, shard deletes, PreOffload and RollbackPreOffload. */
  datatype GateAction =
    | StartMove | EndMove | StartDelete(shard: nat) | EndDelete
    | StartPre | StartRoll | RefForMigration | GateOff | DisableBgr | EnableBgr | GateOn

  /** Offload and DeleteDatabase; a finished migration step unlocks the same way. */
  datatype CloseAction = StartClose(who: Closer) | Mark | Receive | Timeout | CloseOk | CloseFail | UnMark | Unlock

  datatype Action = ByRef(r: RefAction) | ByGate(m: GateAction) | ByClose(c: CloseAction)

  function RefStep(g: Shared, p: Phase, a: RefAction): Option<(Shared, Phase)> {
    match a
    case TakeRef =>
      if p.Idle? && !Refuses(g.pt) then Some((AddRef(g, 1), Held)) else None
    case GiveRef =>
      if p.Held? then Some((AddRef(g, -1), Leaving(g.pt.exeCount - 1, ToIdle)))
      else if p.PreLeave? then Some((AddRef(g, -1), Leaving(g.pt.exeCount - 1, ToUnlock)))
      else if p.Roll2? then Some((AddRef(g, -1), Leaving(g.pt.exeCount - 1, ToRoll3)))
      else None
    case Notify =>
      if p.Leaving? then Some((Notified(g, NoticeAt(g.pt, p.count)), Arrive(p.next))) else None
    case EndPreload =>
      if p.Idle? then Some((g.(pt := g.pt.(preload := false)), p)) else None
  }

  function GateStep(g: Shared, p: Phase, writable: bool, a: GateAction): Option<(Shared, Phase)> {
    match a
    case StartMove =>
      if p.Held? && writable && !g.pt.doingOff then Some((g.(pt := g.pt.(doingShardMoveN := g.pt.doingShardMoveN + 1)),
                                                          Moving)) else None
    case EndMove =>
      if p.Moving? then Some((g.(pt := g.pt.(doingShardMoveN := g.pt.doingShardMoveN - 1)), Held)) else None
    case StartDelete(x) =>
      if p.Held? && writable && g.pt.bgrEnabled && x !in g.pt.pendingShardDeletes
      then Some((g.(pt := g.pt.(pendingShardDeletes := g.pt.pendingShardDeletes + {x})), Deleting(x))) else None
    case EndDelete =>
      if p.Deleting? && writable
      then Some((g.(pt := g.pt.(pendingShardDeletes := g.pt.pendingShardDeletes - {p.shard})), Held)) else None
    case StartPre =>
      if p.Idle? && !g.migrating then Some((g.(migrating := true), PreStart)) else None
    case StartRoll =>
      if p.Idle? && !g.migrating then Some((g.(migrating := true), RollStart)) else None
    case RefForMigration =>
      if !p.PreStart? && !p.RollStart? then None
      else if Refuses(g.pt) then Some((g, Unlocking(Offload)))
      else Some((AddRef(g, 1), if p.PreStart? then Pre1 else Roll1))
    case GateOff =>
      if p.Pre1? && writable then Some((g.(pt := GatedOff(g.pt).0), if GatedOff(g.pt).1 then Pre2 else PreLeave))
      else None
    case DisableBgr =>
      if p.Pre2? && writable then Some((g.(pt := BgrDisabled(g.pt).0), PreLeave)) else None
    case EnableBgr =>
      if p.Roll1? && writable then Some((g.(pt := BgrEnabled(g.pt)), Roll2)) else None
    case GateOn =>
      if p.Roll3? && writable then Some((g.(pt := g.pt.(doingOff := false)), Unlocking(Offload))) else None
  }

  function CloseStep(cfg: Config, g: Shared, p: Phase, writable: bool, a: CloseAction): Option<(Shared, Phase)> {
    match a
    case StartClose(who) =>
      if !p.Idle? || g.dropped then None
      else if who == Offload && cfg.offloads && !g.migrating then Some((g.(migrating := true), CloseStart(who)))
      else if who == DeleteDatabase && cfg.drops && !g.dropping then Some((g.(dropping := true), CloseStart(who)))
      else None
    case Mark =>
      if p.CloseStart? && writable then
        var (pt, idle) := Marked(g.pt, |g.chans|);
        Some((g.(pt := pt, chans := g.chans + [Chan(0, 0)]), if idle then Closing(p.who)
              else Waiting(p.who, |g.chans|)))
      else None
    case Receive =>
      if p.Waiting? && p.done < |g.chans| && g.chans[p.done] != Chan(0, 0) then Some((g, Closing(p.who))) else None
    case Timeout =>
      if p.Waiting? then Some((g, GivingUp(p.who))) else None
    case CloseOk =>
      if p.Closing? then Some((g.(dropped := true), Unlocking(p.who))) else None
    case CloseFail =>
      if p.Closing? then Some((g, GivingUp(p.who))) else None
    case UnMark =>
      if p.GivingUp? && writable
      then Some((g.(pt := Unmarked(g.pt).0, chans := Closed(g.chans, Unmarked(g.pt).1)), Unlocking(p.who))) else None
    case Unlock =>
      if !p.Unlocking? then None
      else if p.who == Offload then Some((g.(migrating := false), Idle))
      else Some((g.(dropping := false), Idle))
  }

  /** One atomic step of a thread in phase `p`; `writable` tells that no thread is
      inside a read lock.  `None` if the action is not enabled. */
  function ThreadStep(cfg: Config, g: Shared, p: Phase, writable: bool, a: Action): Option<(Shared, Phase)> {
    match a
    case ByRef(r) => RefStep(g, p, r)
    case ByGate(m) => GateStep(g, p, writable, m)
    case ByClose(c) => CloseStep(cfg, g, p, writable, c)
  }

  function AddRef(g: Shared, n: int): Shared {
    g.(pt := g.pt.(exeCount := g.pt.exeCount + n))
  }

  /** The end of giving back a reference. */
  function Notified(g: Shared, notice: Notice): Shared {
    match notice
    case Quiet => g
    case NilChannel => g.(panicked := true)
    case Signal(c) => g.(pt := g.pt.(ch := None), chans := Sent(g.chans, c))
  }

  function Arrive(next: After): Phase {
    match next
    case ToIdle => Idle
    case ToUnlock => Unlocking(Offload)
    case ToRoll3 => Roll3
  }

  /** One value is sent and the channel is closed. */
  function Sent(chans: seq<Chan>, i: nat): seq<Chan> {
    if i < |chans| then chans[i := Chan(chans[i].sends + 1, chans[i].closes + 1)] else chans
  }

  function Closed(chans: seq<Chan>, c: Option<nat>): seq<Chan> {
    if c.Some? && c.value < |chans| then chans[c.value := Chan(chans[c.value].sends, chans[c.value].closes + 1)]
    else chans
  }

  /** A partition that has just been opened, possibly still preloading. */
  function Init(preload: bool): State {
    State(Shared(NewPt.(preload := preload), [], false, false, false, false), map[])
  }

  function At(s: State, t: nat): Phase {
    if t in s.threads then s.threads[t] else Idle
  }

  predicate Writable(s: State) {
    forall t :: t in s.threads ==> !s.threads[t].Leaving?
  }

  /** One step of thread `t`. */
  function Step(cfg: Config, s: State, t: nat, a: Action): Option<State> {
    match ThreadStep(cfg, s.g, At(s, t), Writable(s), a)
    case None => None
    case Some((g, p)) => Some(State(g, s.threads[t := p]))
  }

  /** The state after a list of steps; `None` if one of them is not enabled. */
  function Run(cfg: Config, s: State, steps: seq<(nat, Action)>): Option<State> {
    if steps == [] then Some(s)
    else match Run(cfg, s, steps[..|steps| - 1])
      case None => None
      case Some(s1) => Step(cfg, s1, steps[|steps| - 1].0, steps[|steps| - 1].1)
  }

  ghost predicate Reachable(cfg: Config, s: State) {
    exists preload, steps :: Run(cfg, Init(preload), steps) == Some(s)
  }
}

/**
  What every run of the partition machine keeps: the counts, the gates, the
  locks, the hand-off channel, and the safety of closing a partition.
 */
module PartitionSafety {
  import opened Options
  import opened Partition
  import opened PartitionRuns

  predicate HasRef(p: Phase) {
    p.Held? || p.Moving? || p.Deleting? || p.Pre1? || p.Pre2? || p.PreLeave? || p.Roll1? || p.Roll2?
  }

  /** Holds the migration lock of the partition. */
  predicate Migrates(p: Phase) {
    || p.PreStart? || p.Pre1? || p.Pre2? || p.PreLeave?
    || p.RollStart? || p.Roll1? || p.Roll2? || p.Roll3?
    || (p.Leaving? && p.next != ToIdle)
    || ((p.CloseStart? || p.Waiting? || p.Closing? || p.GivingUp? || p.Unlocking?) && p.who == Offload)
  }

  /** Holds the drop lock of the database. */
  predicate Drops(p: Phase) {
    (p.CloseStart? || p.Waiting? || p.Closing? || p.GivingUp? || p.Unlocking?) && p.who == DeleteDatabase
  }

  /** Is between marking the partition and unmarking or dropping it. */
  predicate HasMarked(p: Phase) {
    p.Waiting? || p.Closing? || p.GivingUp?
  }

  predicate Closes(p: Phase) {
    p.CloseStart? || HasMarked(p)
  }

  predicate OneShot(c: Chan) {
    c.sends <= 1 && c.closes <= 1
  }

  /** What holds of the shared fields alone. */
  predicate SharedInv(g: Shared) {
    && !g.panicked
    && (g.pt.doingOff ==> g.pt.doingShardMoveN == 0)
    && (!g.pt.bgrEnabled ==> g.pt.pendingShardDeletes == {})
    && (g.pt.ch.Some? ==> g.pt.offloading && g.pt.ch.value < |g.chans| && g.chans[g.pt.ch.value] == Chan(0, 0))
    && (g.pt.offloading && g.pt.exeCount > 0 ==> g.pt.ch.Some?)
    && (forall i :: 0 <= i < |g.chans| ==> OneShot(g.chans[i]))
  }

  /** What holds of the shared fields and one thread. */
  predicate ThreadInv(g: Shared, p: Phase) {
    && (p.Deleting? ==> p.shard in g.pt.pendingShardDeletes)
    && (Migrates(p) ==> g.migrating)
    && (Drops(p) ==> g.dropping)
    && (p.Leaving? && p.count == 0 && g.pt.offloading ==> g.pt.ch.Some? && g.pt.exeCount == 0)
  }

  /** What holds of two different threads. */
  predicate PairInv(g: Shared, p: Phase, q: Phase) {
    && !(Migrates(p) && Migrates(q))
    && !(Drops(p) && Drops(q))
    && (p.Deleting? && q.Deleting? ==> p.shard != q.shard)
    && !(g.pt.offloading && p.Leaving? && q.Leaving? && p.count == 0 && q.count == 0)
  }

  /** The counters agree with the phase of the acting thread. */
  predicate CountsFor(g: Shared, p: Phase) {
    && g.pt.exeCount >= 0 && g.pt.doingShardMoveN >= 0
    && (HasRef(p) ==> g.pt.exeCount > 0)
    && (p.Moving? ==> g.pt.doingShardMoveN > 0)
    && (p.Moving? ==> !g.pt.doingOff)
  }

  lemma NotifyKeeps(g: Shared, p: Phase, g': Shared, p': Phase)
    requires RefStep(g, p, Notify) == Some((g', p')) && SharedInv(g) && ThreadInv(g, p) && CountsFor(g, p)
    ensures SharedInv(g') && ThreadInv(g', p')
  {
  }

  lemma RefKeepsOwn(cfg: Config, g: Shared, p: Phase, writable: bool, a: RefAction, g': Shared, p': Phase)
    requires RefStep(g, p, a) == Some((g', p'))
    requires SharedInv(g) && ThreadInv(g, p) && CountsFor(g, p) && (writable ==> !p.Leaving?)
    ensures SharedInv(g') && ThreadInv(g', p')
  {
    if a.Notify? {
      hide RefStep, SharedInv, ThreadInv, CountsFor;
      NotifyKeeps(g, p, g', p');
    } else {
      hide OneShot, Notified;
    }
  }

  lemma RefKeepsOther(cfg: Config, g: Shared, p: Phase, q: Phase, writable: bool, a: RefAction, g': Shared, p': Phase)
    requires RefStep(g, p, a) == Some((g', p'))
    requires SharedInv(g) && ThreadInv(g, p) && ThreadInv(g, q) && PairInv(g, p, q) && CountsFor(g, p)
    requires writable ==> !p.Leaving? && !q.Leaving?
    ensures ThreadInv(g', q) && PairInv(g', p', q)
  {
    hide OneShot;
  }

  lemma GateKeepsOwn(cfg: Config, g: Shared, p: Phase, writable: bool, a: GateAction, g': Shared, p': Phase)
    requires GateStep(g, p, writable, a) == Some((g', p'))
    requires SharedInv(g) && ThreadInv(g, p) && CountsFor(g, p) && (writable ==> !p.Leaving?)
    ensures SharedInv(g') && ThreadInv(g', p')
  {
    hide OneShot;
  }

  lemma GateKeepsOther(cfg: Config, g: Shared, p: Phase, q: Phase, writable: bool, a: GateAction, g': Shared, p': Phase)
    requires GateStep(g, p, writable, a) == Some((g', p'))
    requires SharedInv(g) && ThreadInv(g, p) && ThreadInv(g, q) && PairInv(g, p, q) && CountsFor(g, p)
    requires writable ==> !p.Leaving? && !q.Leaving?
    ensures ThreadInv(g', q) && PairInv(g', p', q)
  {
    hide OneShot;
  }

  lemma ClosedOnce(g: Shared)
    requires SharedInv(g)
    ensures var chans := Closed(g.chans, Unmarked(g.pt).1);
            |chans| == |g.chans| && forall i :: 0 <= i < |chans| ==> OneShot(chans[i])
    ensures OneShot(Chan(0, 0))
  {
  }

  lemma CloseKeepsOwn(cfg: Config, g: Shared, p: Phase, writable: bool, a: CloseAction, g': Shared, p': Phase)
    requires CloseStep(cfg, g, p, writable, a) == Some((g', p'))
    requires SharedInv(g) && ThreadInv(g, p) && CountsFor(g, p) && (writable ==> !p.Leaving?)
    ensures SharedInv(g') && ThreadInv(g', p')
  {
    hide OneShot, Closed;
    ClosedOnce(g);
  }

  lemma CloseKeepsOther(cfg: Config, g: Shared, p: Phase, q: Phase, writable: bool, a: CloseAction, g': Shared,
                        p': Phase)
    requires CloseStep(cfg, g, p, writable, a) == Some((g', p'))
    requires SharedInv(g) && ThreadInv(g, p) && ThreadInv(g, q) && PairInv(g, p, q) && CountsFor(g, p)
    requires writable ==> !p.Leaving? && !q.Leaving?
    ensures ThreadInv(g', q) && PairInv(g', p', q)
  {
    hide OneShot;
  }

  // ----- closing is safe when only one kind of closer runs

  /** Holds the lock under which the partition is closed. */
  predicate LockHolder(cfg: Config, p: Phase) {
    if cfg.offloads then Migrates(p) else Drops(p)
  }

  predicate SafeShared(cfg: Config, g: Shared) {
    && (g.pt.offloading ==> g.dropped || (if cfg.offloads then g.migrating else g.dropping))
    && (g.dropped ==> g.pt.offloading && g.pt.exeCount == 0 && g.pt.ch.None?)
  }

  predicate SafeThread(cfg: Config, g: Shared, p: Phase) {
    && (Closes(p) ==> !g.dropped && (if p.who == Offload then cfg.offloads else cfg.drops))
    && (LockHolder(cfg, p) && !HasMarked(p) && g.pt.offloading ==> g.dropped)
    && (HasMarked(p) ==> g.pt.offloading)
    && (p.Waiting? ==> p.done < |g.chans| && (g.pt.ch == Some(p.done) || (g.pt.ch.None? && g.pt.exeCount == 0)))
    && (p.Closing? ==> g.pt.ch.None? && g.pt.exeCount == 0)
  }

  predicate OneKind(cfg: Config) {
    !(cfg.offloads && cfg.drops)
  }

  lemma RefKeepsOwnSafe(cfg: Config, g: Shared, p: Phase, writable: bool, a: RefAction, g': Shared, p': Phase)
    requires RefStep(g, p, a) == Some((g', p')) && OneKind(cfg)
    requires SharedInv(g) && ThreadInv(g, p) && CountsFor(g, p)
    requires SafeShared(cfg, g) && SafeThread(cfg, g, p)
    ensures SafeShared(cfg, g') && SafeThread(cfg, g', p')
  {
    hide OneShot;
  }

  lemma RefKeepsOtherSafe(cfg: Config, g: Shared, p: Phase, q: Phase, writable: bool, a: RefAction, g': Shared,
                          p': Phase)
    requires RefStep(g, p, a) == Some((g', p')) && OneKind(cfg)
    requires SharedInv(g) && ThreadInv(g, p) && ThreadInv(g, q) && PairInv(g, p, q) && CountsFor(g, p)
    requires SafeShared(cfg, g) && SafeThread(cfg, g, p) && SafeThread(cfg, g, q)
    ensures SafeThread(cfg, g', q)
  {
    hide OneShot;
  }

  lemma GateKeepsOwnSafe(cfg: Config, g: Shared, p: Phase, writable: bool, a: GateAction, g': Shared, p': Phase)
    requires GateStep(g, p, writable, a) == Some((g', p')) && OneKind(cfg)
    requires SharedInv(g) && ThreadInv(g, p) && CountsFor(g, p)
    requires SafeShared(cfg, g) && SafeThread(cfg, g, p)
    ensures SafeShared(cfg, g') && SafeThread(cfg, g', p')
  {
    hide OneShot;
  }

  lemma GateKeepsOtherSafe(cfg: Config, g: Shared, p: Phase, q: Phase, writable: bool, a: GateAction, g': Shared,
                           p': Phase)
    requires GateStep(g, p, writable, a) == Some((g', p')) && OneKind(cfg)
    requires SharedInv(g) && ThreadInv(g, p) && ThreadInv(g, q) && PairInv(g, p, q) && CountsFor(g, p)
    requires SafeShared(cfg, g) && SafeThread(cfg, g, p) && SafeThread(cfg, g, q)
    ensures SafeThread(cfg, g', q)
  {
    hide OneShot;
  }

  lemma CloseKeepsOwnSafe(cfg: Config, g: Shared, p: Phase, writable: bool, a: CloseAction, g': Shared, p': Phase)
    requires CloseStep(cfg, g, p, writable, a) == Some((g', p')) && OneKind(cfg)
    requires SharedInv(g) && ThreadInv(g, p) && CountsFor(g, p)
    requires SafeShared(cfg, g) && SafeThread(cfg, g, p)
    ensures SafeShared(cfg, g') && SafeThread(cfg, g', p')
  {
    hide OneShot;
  }

  lemma CloseKeepsOtherSafe(cfg: Config, g: Shared, p: Phase, q: Phase, writable: bool, a: CloseAction, g': Shared,
                            p': Phase)
    requires CloseStep(cfg, g, p, writable, a) == Some((g', p')) && OneKind(cfg)
    requires SharedInv(g) && ThreadInv(g, p) && ThreadInv(g, q) && PairInv(g, p, q) && CountsFor(g, p)
    requires SafeShared(cfg, g) && SafeThread(cfg, g, p) && SafeThread(cfg, g, q)
    ensures SafeThread(cfg, g', q)
  {
    hide OneShot;
  }

  // ----- all threads together

  function One(b: bool): int {
    if b then 1 else 0
  }

  function Refs(threads: map<nat, Phase>): set<nat> {
    set t | t in threads && HasRef(threads[t])
  }

  function Movers(threads: map<nat, Phase>): set<nat> {
    set t | t in threads && threads[t].Moving?
  }

  /** The counters are the numbers of threads that hold a reference, and that move. */
  ghost predicate Counted(s: State) {
    s.g.pt.exeCount == |Refs(s.threads)| && s.g.pt.doingShardMoveN == |Movers(s.threads)|
  }

  lemma ChangeOne(before: set<nat>, after: set<nat>, t: nat)
    requires after - {t} == before - {t}
    ensures |after| == |before| - One(t in before) + One(t in after)
  {
    assert before == (before - {t}) + (if t in before then {t} else {});
    assert after == (after - {t}) + (if t in after then {t} else {});
  }

  /** What a step does to the counters and to the mark. */
  predicate Follows(g: Shared, p: Phase, writable: bool, g': Shared, p': Phase) {
    && g'.pt.exeCount == g.pt.exeCount - One(HasRef(p)) + One(HasRef(p'))
    && g'.pt.doingShardMoveN == g.pt.doingShardMoveN - One(p.Moving?) + One(p'.Moving?)
    && (g'.pt.offloading ==> g.pt.offloading || writable)
  }

  lemma RefFollows(cfg: Config, g: Shared, p: Phase, writable: bool, a: RefAction, g': Shared, p': Phase)
    requires RefStep(g, p, a) == Some((g', p'))
    ensures Follows(g, p, writable, g', p')
  {
    hide Sent, Closed;
  }

  lemma GateFollows(cfg: Config, g: Shared, p: Phase, writable: bool, a: GateAction, g': Shared, p': Phase)
    requires GateStep(g, p, writable, a) == Some((g', p'))
    ensures Follows(g, p, writable, g', p')
  {
    hide Sent, Closed;
  }

  lemma CloseFollows(cfg: Config, g: Shared, p: Phase, writable: bool, a: CloseAction, g': Shared, p': Phase)
    requires CloseStep(cfg, g, p, writable, a) == Some((g', p'))
    ensures Follows(g, p, writable, g', p')
  {
    hide Sent, Closed;
  }

  lemma CountersFollow(cfg: Config, g: Shared, p: Phase, writable: bool, a: Action, g': Shared, p': Phase)
    requires ThreadStep(cfg, g, p, writable, a) == Some((g', p'))
    ensures Follows(g, p, writable, g', p')
  {
    hide RefStep, GateStep, CloseStep, Follows;
    match a
    case ByRef(r) => RefFollows(cfg, g, p, writable, r, g', p');
    case ByGate(m) => GateFollows(cfg, g, p, writable, m, g', p');
    case ByClose(c) => CloseFollows(cfg, g, p, writable, c, g', p');
  }

  lemma CountedStep(cfg: Config, s: State, t: nat, a: Action, s': State)
    requires Counted(s) && Step(cfg, s, t, a) == Some(s')
    ensures Counted(s')
  {
    hide ThreadStep;
    CountersFollow(cfg, s.g, At(s, t), Writable(s), a, s'.g, At(s', t));
    ChangeOne(Refs(s.threads), Refs(s'.threads), t);
    ChangeOne(Movers(s.threads), Movers(s'.threads), t);
  }

  ghost predicate Inv(s: State) {
    && Counted(s)
    && SharedInv(s.g)
    && (forall t :: t in s.threads ==> ThreadInv(s.g, s.threads[t]))
    && (forall t, u :: t in s.threads && u in s.threads && t != u ==> PairInv(s.g, s.threads[t], s.threads[u]))
  }

  ghost predicate SafeInv(cfg: Config, s: State) {
    SafeShared(cfg, s.g) && forall t :: t in s.threads ==> SafeThread(cfg, s.g, s.threads[t])
  }

  lemma CountsForThread(s: State, t: nat)
    requires Counted(s) && SharedInv(s.g)
    ensures CountsFor(s.g, At(s, t))
  {
    if HasRef(At(s, t)) { assert t in Refs(s.threads); }
    if At(s, t).Moving? { assert t in Movers(s.threads); }
  }

  lemma KeepsOwn(cfg: Config, g: Shared, p: Phase, writable: bool, a: Action, g': Shared, p': Phase)
    requires ThreadStep(cfg, g, p, writable, a) == Some((g', p'))
    requires SharedInv(g) && ThreadInv(g, p) && CountsFor(g, p) && (writable ==> !p.Leaving?)
    ensures SharedInv(g') && ThreadInv(g', p')
  {
    hide RefStep, GateStep, CloseStep, SharedInv, ThreadInv, CountsFor;
    match a
    case ByRef(r) => RefKeepsOwn(cfg, g, p, writable, r, g', p');
    case ByGate(m) => GateKeepsOwn(cfg, g, p, writable, m, g', p');
    case ByClose(c) => CloseKeepsOwn(cfg, g, p, writable, c, g', p');
  }

  lemma KeepsOther(cfg: Config, g: Shared, p: Phase, q: Phase, writable: bool, a: Action, g': Shared, p': Phase)
    requires ThreadStep(cfg, g, p, writable, a) == Some((g', p'))
    requires SharedInv(g) && ThreadInv(g, p) && ThreadInv(g, q) && PairInv(g, p, q) && CountsFor(g, p)
    requires writable ==> !p.Leaving? && !q.Leaving?
    ensures ThreadInv(g', q) && PairInv(g', p', q)
  {
    hide RefStep, GateStep, CloseStep, SharedInv, ThreadInv, PairInv, CountsFor;
    match a
    case ByRef(r) => RefKeepsOther(cfg, g, p, q, writable, r, g', p');
    case ByGate(m) => GateKeepsOther(cfg, g, p, q, writable, m, g', p');
    case ByClose(c) => CloseKeepsOther(cfg, g, p, q, writable, c, g', p');
  }

  lemma PairAt(s: State, t: nat, u: nat)
    requires Inv(s) && t != u
    ensures PairInv(s.g, At(s, t), At(s, u)) && ThreadInv(s.g, At(s, t))
  {
  }

  /** Every step keeps the invariant. */
  lemma InvStep(cfg: Config, s: State, t: nat, a: Action, s': State)
    requires Inv(s) && Step(cfg, s, t, a) == Some(s')
    ensures Inv(s')
  {
    hide ThreadStep, Counted, SharedInv, ThreadInv, PairInv;
    CountedStep(cfg, s, t, a, s');
    CountsForThread(s, t);
    var p, p', w := At(s, t), At(s', t), Writable(s);
    PairAt(s, t, t + 1);
    KeepsOwn(cfg, s.g, p, w, a, s'.g, p');
    forall u | u in s.threads && u != t
      ensures ThreadInv(s'.g, s.threads[u]) && PairInv(s'.g, p', s.threads[u]) && PairInv(s'.g, s.threads[u], p')
    {
      PairAt(s, t, u);
      PairAt(s, u, t);
      KeepsOther(cfg, s.g, p, s.threads[u], w, a, s'.g, p');
      PairSymmetric(s'.g, p', s.threads[u]);
    }
    forall u, v | u in s.threads && v in s.threads && u != v && u != t && v != t
      ensures PairInv(s'.g, s.threads[u], s.threads[v])
    {
      CountersFollow(cfg, s.g, p, w, a, s'.g, p');
      PairElsewhere(s.g, s'.g, s.threads[u], s.threads[v], w);
    }
  }

  lemma PairSymmetric(g: Shared, p: Phase, q: Phase)
    requires PairInv(g, p, q)
    ensures PairInv(g, q, p)
  {
  }

  lemma PairElsewhere(g: Shared, g': Shared, p: Phase, q: Phase, writable: bool)
    requires PairInv(g, p, q) && (g'.pt.offloading ==> g.pt.offloading || writable)
    requires writable ==> !p.Leaving? && !q.Leaving?
    ensures PairInv(g', p, q)
  {
  }

  lemma KeepsSafe(cfg: Config, g: Shared, p: Phase, q: Phase, writable: bool, a: Action, g': Shared, p': Phase)
    requires ThreadStep(cfg, g, p, writable, a) == Some((g', p')) && OneKind(cfg)
    requires SharedInv(g) && ThreadInv(g, p) && ThreadInv(g, q) && PairInv(g, p, q) && CountsFor(g, p)
    requires SafeShared(cfg, g) && SafeThread(cfg, g, p) && SafeThread(cfg, g, q)
    ensures SafeShared(cfg, g') && SafeThread(cfg, g', p') && SafeThread(cfg, g', q)
  {
    hide RefStep, GateStep, CloseStep, SharedInv, ThreadInv, PairInv, CountsFor, SafeShared, SafeThread;
    match a
    case ByRef(r) =>
      RefKeepsOwnSafe(cfg, g, p, writable, r, g', p');
      RefKeepsOtherSafe(cfg, g, p, q, writable, r, g', p');
    case ByGate(m) =>
      GateKeepsOwnSafe(cfg, g, p, writable, m, g', p');
      GateKeepsOtherSafe(cfg, g, p, q, writable, m, g', p');
    case ByClose(c) =>
      CloseKeepsOwnSafe(cfg, g, p, writable, c, g', p');
      CloseKeepsOtherSafe(cfg, g, p, q, writable, c, g', p');
  }

  lemma SafeAt(cfg: Config, s: State, t: nat)
    requires SafeInv(cfg, s)
    ensures SafeThread(cfg, s.g, At(s, t))
  {
  }

  lemma SafePair(cfg: Config, s: State, t: nat, u: nat, a: Action, s': State)
    requires Inv(s) && SafeInv(cfg, s) && OneKind(cfg) && Step(cfg, s, t, a) == Some(s') && u != t
    ensures SafeShared(cfg, s'.g) && SafeThread(cfg, s'.g, At(s', t)) && SafeThread(cfg, s'.g, At(s, u))
  {
    hide ThreadStep, Counted, SharedInv, ThreadInv, PairInv, SafeShared, SafeThread;
    CountsForThread(s, t);
    PairAt(s, t, u);
    PairAt(s, u, t);
    SafeAt(cfg, s, t);
    SafeAt(cfg, s, u);
    KeepsSafe(cfg, s.g, At(s, t), At(s, u), Writable(s), a, s'.g, At(s', t));
  }

  lemma SafeStep(cfg: Config, s: State, t: nat, a: Action, s': State)
    requires Inv(s) && SafeInv(cfg, s) && OneKind(cfg) && Step(cfg, s, t, a) == Some(s')
    ensures SafeInv(cfg, s')
  {
    hide ThreadStep, Inv, SafeShared, SafeThread;
    SafePair(cfg, s, t, t + 1, a, s');
    forall u | u in s'.threads ensures SafeThread(cfg, s'.g, s'.threads[u]) {
      if u != t {
        SafePair(cfg, s, t, u, a, s');
      }
    }
  }

  /** The invariant holds in every reachable state. */
  lemma {:induction false} InvRun(cfg: Config, preload: bool, steps: seq<(nat, Action)>, s: State)
    requires Run(cfg, Init(preload), steps) == Some(s)
    ensures Inv(s)
    ensures OneKind(cfg) ==> SafeInv(cfg, s)
  {
    hide Step, Inv, SafeInv;
    if steps == [] {
      InitInv(cfg, preload);
    } else {
      var n := |steps| - 1;
      var s1 := Run(cfg, Init(preload), steps[..n]).value;
      InvRun(cfg, preload, steps[..n], s1);
      InvStep(cfg, s1, steps[n].0, steps[n].1, s);
      if OneKind(cfg) {
        SafeStep(cfg, s1, steps[n].0, steps[n].1, s);
      }
    }
  }

  lemma InitInv(cfg: Config, preload: bool)
    ensures Inv(Init(preload)) && SafeInv(cfg, Init(preload))
  {
    assert Refs(map[]) == {} && Movers(map[]) == {};
  }

  // ----- what this means for every run

  /** References: the count is the number of holders, a waited-on channel is set
      whenever an offload waits for holders, so the nil-channel panic is never
      reached, and no channel is sent to or closed twice. */
  lemma RefProtocol(cfg: Config, s: State)
    requires Reachable(cfg, s)
    ensures !s.g.panicked
    ensures s.g.pt.exeCount == |Refs(s.threads)|
    ensures s.g.pt.offloading && s.g.pt.exeCount > 0 ==> s.g.pt.ch.Some?
    ensures forall i :: 0 <= i < |s.g.chans| ==> s.g.chans[i].sends <= 1 && s.g.chans[i].closes <= 1
  {
    hide Run;
    var preload, steps :| Run(cfg, Init(preload), steps) == Some(s);
    InvRun(cfg, preload, steps, s);
  }

  /** Gates: no move runs while the partition is being moved off, no delete is
      pending while background work is disabled, and one migration step at most
      is active, even if PreOffload stopped halfway. */
  lemma MigrationGates(cfg: Config, s: State)
    requires Reachable(cfg, s)
    ensures s.g.pt.doingOff ==> forall t :: !At(s, t).Moving?
    ensures !s.g.pt.bgrEnabled ==> s.g.pt.pendingShardDeletes == {} && forall t :: !At(s, t).Deleting?
    ensures forall t, u :: Migrates(At(s, t)) && Migrates(At(s, u)) ==> t == u
    ensures forall t, u :: At(s, t).Deleting? && At(s, u).Deleting? && t != u ==> At(s, t).shard != At(s, u).shard
  {
    hide Run;
    var preload, steps :| Run(cfg, Init(preload), steps) == Some(s);
    InvRun(cfg, preload, steps, s);
    forall t ensures s.g.pt.doingOff ==> !At(s, t).Moving? { CountsForThread(s, t); }
    forall t, u | t != u
      ensures !(Migrates(At(s, t)) && Migrates(At(s, u)))
      ensures At(s, t).Deleting? && At(s, u).Deleting? ==> At(s, t).shard != At(s, u).shard
    {
      PairAt(s, t, u);
    }
  }

  /** Nothing uses the partition while it is closed, or after it was dropped. */
  ghost predicate Safe(s: State) {
    (exists t :: At(s, t).Closing?) || s.g.dropped ==>
      s.g.pt.offloading && forall u :: !HasRef(At(s, u))
  }

  /** With Offload only, or with DeleteDatabase only, closing is safe in every run. */
  lemma CloseIsSafe(cfg: Config, s: State)
    requires Reachable(cfg, s) && OneKind(cfg)
    ensures Safe(s)
  {
    hide Run;
    var preload, steps :| Run(cfg, Init(preload), steps) == Some(s);
    InvRun(cfg, preload, steps, s);
    if (exists t :: At(s, t).Closing?) || s.g.dropped {
      if t :| At(s, t).Closing? {
        SafeAt(cfg, s, t);
      }
      forall u ensures !HasRef(At(s, u)) {
        CountsForThread(s, u);
      }
    }
  }

  /** From a safe closing state no thread gets a reference before the mark is taken back. */
  lemma NoRefWhileClosing(cfg: Config, s: State, t: nat, a: Action, s': State)
    requires Reachable(cfg, s) && OneKind(cfg) && Step(cfg, s, t, a) == Some(s')
    requires (exists u :: At(s, u).Closing?) || s.g.dropped
    ensures forall u :: !HasRef(At(s', u))
  {
    CloseIsSafe(cfg, s);
    assert s.g.pt.offloading && !HasRef(At(s, t));
    NoNewRef(cfg, s.g, At(s, t), Writable(s), a, s'.g, At(s', t));
    forall u ensures !HasRef(At(s', u)) {
      assert u != t ==> At(s', u) == At(s, u);
    }
  }

  lemma NoNewRef(cfg: Config, g: Shared, p: Phase, writable: bool, a: Action, g': Shared, p': Phase)
    requires ThreadStep(cfg, g, p, writable, a) == Some((g', p')) && g.pt.offloading && !HasRef(p)
    ensures !HasRef(p')
  {
    hide Sent, Closed;
  }

  lemma RunSnoc(cfg: Config, s: State, steps: seq<(nat, Action)>, s1: State, t: nat, a: Action, s2: State)
    requires Run(cfg, s, steps) == Some(s1) && Step(cfg, s1, t, a) == Some(s2)
    ensures Run(cfg, s, steps + [(t, a)]) == Some(s2)
  {
    assert (steps + [(t, a)])[..|steps|] == steps;
  }
}

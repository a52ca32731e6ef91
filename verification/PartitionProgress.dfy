/**
  What every run of the partition machine owes its threads: nobody gets a reference to a
  partition that is preloading or marked, a mark that nobody stands behind is taken back,
  and a closer that waits is told when the last reference is gone.
 */
module PartitionProgress {
  import opened Options
  import opened Partition
  import opened PartitionRuns
  import opened PartitionSafety

  predicate LastOut(p: Phase) {
    p.Leaving? && p.count == 0
  }

  /** Nobody holds a reference to a partition that is preloading. */
  ghost predicate Unused(s: State) {
    s.g.pt.preload ==> forall t :: !HasRef(At(s, t))
  }

  /** A mark is that of a thread, or of the one that dropped the partition. */
  ghost predicate MarkHeld(s: State) {
    s.g.pt.offloading && !s.g.dropped ==> exists t :: HasMarked(At(s, t))
  }

  /** A registered channel waits for a reference, or its signal is on the way. */
  ghost predicate SignalDue(s: State) {
    s.g.pt.ch.Some? && s.g.pt.exeCount == 0 ==> exists t :: LastOut(At(s, t))
  }

  /** A thread that waits is registered, or its channel has been used. */
  predicate WaitsWell(g: Shared, p: Phase) {
    p.Waiting? ==> p.done < |g.chans| && (g.pt.ch == Some(p.done) || g.chans[p.done] != Chan(0, 0))
  }

  ghost predicate AllWaitWell(s: State) {
    forall t :: WaitsWell(s.g, At(s, t))
  }

  /** Preloading ends once, and no reference is taken before. */
  predicate PreloadKept(g: Shared, p: Phase, g': Shared, p': Phase) {
    (g'.pt.preload ==> g.pt.preload) && (g.pt.preload && !HasRef(p) ==> !HasRef(p'))
  }

  /** A thread that marks stands behind the mark, and one that goes takes it back. */
  predicate MarkKept(g: Shared, p: Phase, g': Shared, p': Phase) {
    g'.pt.offloading && !g'.dropped ==> HasMarked(p') || (g.pt.offloading && !g.dropped && !HasMarked(p))
  }

  predicate SignalKept(g: Shared, p: Phase, g': Shared, p': Phase) {
    g'.pt.ch.Some? && g'.pt.exeCount == 0 ==> LastOut(p') || (g.pt.ch.Some? && g.pt.exeCount == 0 && !LastOut(p))
  }

  lemma RefKeeps(g: Shared, p: Phase, a: RefAction, g': Shared, p': Phase)
    requires RefStep(g, p, a) == Some((g', p')) && SharedInv(g) && ThreadInv(g, p) && CountsFor(g, p)
    ensures PreloadKept(g, p, g', p') && MarkKept(g, p, g', p') && SignalKept(g, p, g', p')
  {
    hide OneShot, Sent, Closed;
  }

  lemma GateKeeps(g: Shared, p: Phase, writable: bool, a: GateAction, g': Shared, p': Phase)
    requires GateStep(g, p, writable, a) == Some((g', p')) && SharedInv(g) && ThreadInv(g, p) && CountsFor(g, p)
    ensures PreloadKept(g, p, g', p') && MarkKept(g, p, g', p') && SignalKept(g, p, g', p')
  {
    hide OneShot, Sent, Closed;
  }

  lemma CloseKeeps(cfg: Config, g: Shared, p: Phase, writable: bool, a: CloseAction, g': Shared, p': Phase)
    requires CloseStep(cfg, g, p, writable, a) == Some((g', p')) && SharedInv(g) && ThreadInv(g, p) && CountsFor(g, p)
    ensures PreloadKept(g, p, g', p') && MarkKept(g, p, g', p') && SignalKept(g, p, g', p')
  {
    hide OneShot, Sent, Closed;
  }

  lemma Keeps(cfg: Config, g: Shared, p: Phase, writable: bool, a: Action, g': Shared, p': Phase)
    requires ThreadStep(cfg, g, p, writable, a) == Some((g', p'))
    requires SharedInv(g) && ThreadInv(g, p) && CountsFor(g, p)
    ensures PreloadKept(g, p, g', p') && MarkKept(g, p, g', p') && SignalKept(g, p, g', p')
  {
    hide RefStep, GateStep, CloseStep, SharedInv, ThreadInv, CountsFor, PreloadKept, MarkKept, SignalKept;
    match a
    case ByRef(r) => RefKeeps(g, p, r, g', p');
    case ByGate(m) => GateKeeps(g, p, writable, m, g', p');
    case ByClose(c) => CloseKeeps(cfg, g, p, writable, c, g', p');
  }

  lemma RefWaits(cfg: Config, g: Shared, p: Phase, q: Phase, a: RefAction, g': Shared, p': Phase)
    requires RefStep(g, p, a) == Some((g', p')) && SharedInv(g) && WaitsWell(g, p) && WaitsWell(g, q)
    ensures WaitsWell(g', p') && WaitsWell(g', q)
  {
    hide OneShot;
  }

  lemma GateWaits(cfg: Config, g: Shared, p: Phase, q: Phase, writable: bool, a: GateAction, g': Shared, p': Phase)
    requires GateStep(g, p, writable, a) == Some((g', p')) && WaitsWell(g, p) && WaitsWell(g, q)
    ensures WaitsWell(g', p') && WaitsWell(g', q)
  {
  }

  lemma CloseWaits(cfg: Config, g: Shared, p: Phase, q: Phase, writable: bool, a: CloseAction, g': Shared, p': Phase)
    requires CloseStep(cfg, g, p, writable, a) == Some((g', p')) && OneKind(cfg)
    requires SharedInv(g) && ThreadInv(g, p) && ThreadInv(g, q) && PairInv(g, p, q) && CountsFor(g, p)
    requires SafeShared(cfg, g) && SafeThread(cfg, g, p) && SafeThread(cfg, g, q)
    requires WaitsWell(g, p) && WaitsWell(g, q)
    ensures WaitsWell(g', p') && WaitsWell(g', q)
  {
    hide OneShot;
  }

  lemma Waits(cfg: Config, s: State, t: nat, u: nat, a: Action, s': State)
    requires Inv(s) && SafeInv(cfg, s) && OneKind(cfg) && AllWaitWell(s) && Step(cfg, s, t, a) == Some(s') && t != u
    ensures WaitsWell(s'.g, At(s', t)) && WaitsWell(s'.g, At(s, u))
  {
    hide RefStep, GateStep, CloseStep, SharedInv, ThreadInv, PairInv, CountsFor, SafeShared, SafeThread, WaitsWell,
      Counted;
    var g, p, q := s.g, At(s, t), At(s, u);
    PairAt(s, t, u);
    PairAt(s, u, t);
    SafeAt(cfg, s, t);
    SafeAt(cfg, s, u);
    CountsForThread(s, t);
    match a
    case ByRef(r) => RefWaits(cfg, g, p, q, r, s'.g, At(s', t));
    case ByGate(m) => GateWaits(cfg, g, p, q, Writable(s), m, s'.g, At(s', t));
    case ByClose(c) => CloseWaits(cfg, g, p, q, Writable(s), c, s'.g, At(s', t));
  }

  lemma WaitStep(cfg: Config, s: State, t: nat, a: Action, s': State)
    requires Inv(s) && SafeInv(cfg, s) && OneKind(cfg) && AllWaitWell(s) && Step(cfg, s, t, a) == Some(s')
    ensures AllWaitWell(s')
  {
    hide ThreadStep, Inv, SafeInv, WaitsWell;
    forall u ensures WaitsWell(s'.g, At(s', u)) {
      Waits(cfg, s, t, if u == t then t + 1 else u, a, s');
    }
  }

  lemma KeepStep(cfg: Config, s: State, t: nat, a: Action, s': State)
    requires Inv(s) && Unused(s) && MarkHeld(s) && SignalDue(s) && Step(cfg, s, t, a) == Some(s')
    ensures Unused(s') && MarkHeld(s') && SignalDue(s')
  {
    hide ThreadStep, SharedInv, ThreadInv, CountsFor, Counted, HasRef, HasMarked, LastOut;
    var p, p' := At(s, t), At(s', t);
    PairAt(s, t, t + 1);
    CountsForThread(s, t);
    Keeps(cfg, s.g, p, Writable(s), a, s'.g, p');
    forall u | u != t ensures At(s', u) == At(s, u) {
    }
    if s'.g.pt.offloading && !s'.g.dropped && !HasMarked(p') {
      var u :| HasMarked(At(s, u));
      assert HasMarked(At(s', u));
    }
    if s'.g.pt.ch.Some? && s'.g.pt.exeCount == 0 && !LastOut(p') {
      var u :| LastOut(At(s, u));
      assert LastOut(At(s', u));
    }
  }

  lemma {:induction false} ProgressRun(cfg: Config, preload: bool, steps: seq<(nat, Action)>, s: State)
    requires Run(cfg, Init(preload), steps) == Some(s)
    ensures Unused(s) && MarkHeld(s) && SignalDue(s)
    ensures OneKind(cfg) ==> AllWaitWell(s)
  {
    hide Step, Inv, SafeInv, Unused, MarkHeld, SignalDue, AllWaitWell;
    if steps == [] {
      InitProgress(preload);
    } else {
      var n := |steps| - 1;
      var s1 := Run(cfg, Init(preload), steps[..n]).value;
      ProgressRun(cfg, preload, steps[..n], s1);
      InvRun(cfg, preload, steps[..n], s1);
      KeepStep(cfg, s1, steps[n].0, steps[n].1, s);
      if OneKind(cfg) {
        WaitStep(cfg, s1, steps[n].0, steps[n].1, s);
      }
    }
  }

  lemma InitProgress(preload: bool)
    ensures Unused(Init(preload)) && MarkHeld(Init(preload)) && SignalDue(Init(preload)) && AllWaitWell(Init(preload))
  {
  }

  // ----- what this means for every run

  /** In every reachable state a partition that is preloading has no holder and count 0. */
  lemma Preloading(cfg: Config, s: State)
    requires Reachable(cfg, s) && s.g.pt.preload
    ensures s.g.pt.exeCount == 0 && forall t :: !HasRef(At(s, t))
  {
    hide Run;
    var preload, steps :| Run(cfg, Init(preload), steps) == Some(s);
    ProgressRun(cfg, preload, steps, s);
    InvRun(cfg, preload, steps, s);
    assert Refs(s.threads) == {} by {
      forall t | t in s.threads ensures !HasRef(s.threads[t]) {
        assert !HasRef(At(s, t));
      }
    }
  }

  /** A thread can take a reference exactly if it is idle and the partition is neither marked
      nor preloading; no step of any thread gives one otherwise. */
  lemma RefOnlyWhenOpen(cfg: Config, s: State, t: nat)
    ensures Step(cfg, s, t, ByRef(TakeRef)).Some? <==> At(s, t).Idle? && !s.g.pt.offloading && !s.g.pt.preload
    ensures forall a, s' :: Step(cfg, s, t, a) == Some(s') && !HasRef(At(s, t)) && HasRef(At(s', t)) ==>
              !s.g.pt.offloading && !s.g.pt.preload && s'.g.pt.exeCount == s.g.pt.exeCount + 1
  {
    forall a, s' | Step(cfg, s, t, a) == Some(s') && !HasRef(At(s, t)) && HasRef(At(s', t))
      ensures !s.g.pt.offloading && !s.g.pt.preload && s'.g.pt.exeCount == s.g.pt.exeCount + 1
    {
      NewRef(cfg, s.g, At(s, t), Writable(s), a, s'.g, At(s', t));
    }
  }

  lemma NewRef(cfg: Config, g: Shared, p: Phase, writable: bool, a: Action, g': Shared, p': Phase)
    requires ThreadStep(cfg, g, p, writable, a) == Some((g', p')) && !HasRef(p) && HasRef(p')
    ensures !g.pt.offloading && !g.pt.preload && g'.pt.exeCount == g.pt.exeCount + 1
  {
    hide CloseStep, RefStep, GateStep;
    CountersFollow(cfg, g, p, writable, a, g', p');
    match a
    case ByRef(r) => NewByRef(g, p, r, g', p');
    case ByGate(m) => NewByGate(g, p, writable, m, g', p');
    case ByClose(c) => NoneByClose(cfg, g, p, writable, c, g', p');
  }

  lemma NewByRef(g: Shared, p: Phase, a: RefAction, g': Shared, p': Phase)
    requires RefStep(g, p, a) == Some((g', p')) && !HasRef(p) && HasRef(p')
    ensures !g.pt.offloading && !g.pt.preload
  {
    hide Notified;
  }

  lemma NewByGate(g: Shared, p: Phase, writable: bool, a: GateAction, g': Shared, p': Phase)
    requires GateStep(g, p, writable, a) == Some((g', p')) && !HasRef(p) && HasRef(p')
    ensures !g.pt.offloading && !g.pt.preload
  {
  }

  lemma NoneByClose(cfg: Config, g: Shared, p: Phase, writable: bool, a: CloseAction, g': Shared, p': Phase)
    requires CloseStep(cfg, g, p, writable, a) == Some((g', p')) && !HasRef(p)
    ensures !HasRef(p')
  {
    hide Closed, Unmarked;
  }

  /** In every reachable state a marked partition is dropped or some thread stands behind
      the mark, so a partition nobody closes can be used. */
  lemma MarkIsTakenBack(cfg: Config, s: State)
    requires Reachable(cfg, s) && !s.g.dropped && forall t :: !HasMarked(At(s, t))
    ensures !s.g.pt.offloading
  {
    hide Run;
    var preload, steps :| Run(cfg, Init(preload), steps) == Some(s);
    ProgressRun(cfg, preload, steps, s);
  }

  /** With one kind of closer, a closer that waits can go on as soon as nobody holds a
      reference and nobody is on the way out. */
  lemma CloserIsTold(cfg: Config, s: State, t: nat)
    requires Reachable(cfg, s) && OneKind(cfg) && At(s, t).Waiting? && s.g.pt.exeCount == 0
    requires forall u :: !LastOut(At(s, u))
    ensures Step(cfg, s, t, ByClose(Receive)).Some?
  {
    hide Run;
    var preload, steps :| Run(cfg, Init(preload), steps) == Some(s);
    ProgressRun(cfg, preload, steps, s);
    assert WaitsWell(s.g, At(s, t));
  }
}

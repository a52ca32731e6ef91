/**
  Offload and DeleteDatabase of the same partition do not exclude each other.
  A run in which the timeout of the one closes the channel the other waits on,
  so that the partition is closed under a live reference.
 */
module PartitionRace {
  import opened Options
  import opened Partition
  import opened PartitionRuns
  import opened PartitionSafety

  const BOTH := Config(true, true)

  /** The shared fields during the race: `refs` references, one optional mark. */
  function Between(offloading: bool, ch: Option<nat>, chans: seq<Chan>, migrating: bool, dropping: bool): Shared {
    Shared(Pt(1, offloading, false, ch, false, 0, true, {}), chans, migrating, dropping, false, false)
  }

  const R1 := State(Between(false, None, [], false, false), map[0 := Held])
  const R2 := State(Between(false, None, [], false, true), R1.threads[1 := CloseStart(DeleteDatabase)])
  const R3 := State(Between(true, Some(0), [Chan(0, 0)], false, true), R2.threads[1 := Waiting(DeleteDatabase, 0)])
  const R4 := State(Between(true, Some(0), [Chan(0, 0)], true, true), R3.threads[2 := CloseStart(Offload)])
  const R5 := State(Between(true, Some(0), [Chan(0, 0), Chan(0, 0)], true, true), R4.threads[2 := Waiting(Offload, 1)])
  const R6 := State(R5.g, R5.threads[2 := GivingUp(Offload)])
  const R7 := State(Between(false, None, [Chan(0, 1), Chan(0, 0)], true, true), R6.threads[2 := Unlocking(Offload)])
  const R8 := State(R7.g, R7.threads[1 := Closing(DeleteDatabase)])

  lemma Step1() ensures Step(BOTH, Init(false), 0, ByRef(TakeRef)) == Some(R1) {}

  lemma Step2() ensures Step(BOTH, R1, 1, ByClose(StartClose(DeleteDatabase))) == Some(R2) {}

  lemma Step3()
    ensures Step(BOTH, R2, 1, ByClose(Mark)) == Some(R3)
  {
    assert [] + [Chan(0, 0)] == [Chan(0, 0)];
  }

  lemma Step4() ensures Step(BOTH, R3, 2, ByClose(StartClose(Offload))) == Some(R4) {}

  lemma Step5()
    ensures Step(BOTH, R4, 2, ByClose(Mark)) == Some(R5)
  {
    assert [Chan(0, 0)] + [Chan(0, 0)] == [Chan(0, 0), Chan(0, 0)];
  }

  lemma Step6() ensures Step(BOTH, R5, 2, ByClose(Timeout)) == Some(R6) {}

  lemma Step7()
    ensures Step(BOTH, R6, 2, ByClose(UnMark)) == Some(R7)
  {
    assert [Chan(0, 0), Chan(0, 0)][0 := Chan(0, 1)] == [Chan(0, 1), Chan(0, 0)];
  }

  lemma Step8() ensures Step(BOTH, R7, 1, ByClose(Receive)) == Some(R8) {}

  /** The partition is being closed while a thread holds a reference. */
  lemma RacingClosers()
    ensures Reachable(BOTH, R8)
    ensures At(R8, 1).Closing? && HasRef(At(R8, 0)) && !Safe(R8)
  {
    hide Step;
    var s0 := Init(false);
    var steps := [];
    Step1(); RunSnoc(BOTH, s0, steps, s0, 0, ByRef(TakeRef), R1); steps := steps + [(0, ByRef(TakeRef))];
    Step2(); RunSnoc(BOTH, s0, steps, R1, 1, ByClose(StartClose(DeleteDatabase)), R2);
    steps := steps + [(1, ByClose(StartClose(DeleteDatabase)))];
    Step3(); RunSnoc(BOTH, s0, steps, R2, 1, ByClose(Mark), R3); steps := steps + [(1, ByClose(Mark))];
    Step4(); RunSnoc(BOTH, s0, steps, R3, 2, ByClose(StartClose(Offload)), R4);
    steps := steps + [(2, ByClose(StartClose(Offload)))];
    Step5(); RunSnoc(BOTH, s0, steps, R4, 2, ByClose(Mark), R5); steps := steps + [(2, ByClose(Mark))];
    Step6(); RunSnoc(BOTH, s0, steps, R5, 2, ByClose(Timeout), R6); steps := steps + [(2, ByClose(Timeout))];
    Step7(); RunSnoc(BOTH, s0, steps, R6, 2, ByClose(UnMark), R7); steps := steps + [(2, ByClose(UnMark))];
    Step8(); RunSnoc(BOTH, s0, steps, R7, 1, ByClose(Receive), R8); steps := steps + [(1, ByClose(Receive))];
    assert Run(BOTH, Init(false), steps) == Some(R8);
    assert At(R8, 1).Closing? && HasRef(At(R8, 0));
  }

  /** Closing a partition is safe in every run exactly when Offload and
      DeleteDatabase do not both take place. */
  lemma SafeExactlyForOneKind(cfg: Config)
    ensures (forall s :: Reachable(cfg, s) ==> Safe(s)) <==> OneKind(cfg)
  {
    hide Reachable, Safe;
    if OneKind(cfg) {
      forall s | Reachable(cfg, s) ensures Safe(s) {
        CloseIsSafe(cfg, s);
      }
    } else {
      assert cfg == BOTH;
      RacingClosers();
    }
  }
}
